/** What the tree builder makes of whole documents: it undoes a serializer, keeps document
    order on any input, and ignores an end tag with nothing to close. */
module TreeBuilderRuns {
  import opened TreeBuilder

  // ---------------------------------------------------------------------------
  // The builder undoes a serializer
  // ---------------------------------------------------------------------------

  /** A document as written: an element says whether it is written as a self-closing tag. */
  datatype Markup = Words(text: string) | Tag(tag: string, attrs: Attrs, slash: bool, kids: seq<Markup>)

  /** Void elements and self-closing tags have no children. */
  predicate WellFormed(m: Markup) {
    m.Tag? ==> (m.slash || IsVoid(m.tag) ==> m.kids == []) && forall k :: k in m.kids ==> WellFormed(k)
  }

  predicate AllWellFormed(ms: seq<Markup>) { forall k :: k in ms ==> WellFormed(k) }

  function Events(m: Markup): seq<Event> {
    match m
    case Words(text) => [Data(text)]
    case Tag(tag, attrs, slash, kids) =>
      if slash then [SelfClosing(tag, attrs)]
      else if IsVoid(tag) then [Start(tag, attrs)]
      else [Start(tag, attrs)] + AllEvents(kids) + [End(tag)]
  }

  function AllEvents(ms: seq<Markup>): seq<Event> {
    if ms == [] then [] else Events(ms[0]) + AllEvents(ms[1..])
  }

  /** The tree the text stands for. */
  function Meaning(m: Markup): Item {
    match m
    case Words(text) => Text(text)
    case Tag(tag, attrs, slash, kids) => Element(tag, attrs, AllMeanings(kids))
  }

  function AllMeanings(ms: seq<Markup>): seq<Item> {
    if ms == [] then [] else [Meaning(ms[0])] + AllMeanings(ms[1..])
  }

  lemma {:induction false} RunConcat(s: Stack, a: seq<Event>, b: seq<Event>)
    ensures Run(s, a + b) == Run(Run(s, a), b)
    decreases |a|
  {
    if a == [] {
      assert a + b == b;
    } else {
      assert (a + b)[1..] == a[1..] + b;
      RunConcat(Step(s, a[0]), a[1..], b);
    }
  }

  lemma AddTwice(s: Stack, a: seq<Item>, b: seq<Item>)
    ensures Add(Add(s, a), b) == Add(s, a + b)
    ensures Add(s, []) == s
  {
    assert Top(s).kids + a + b == Top(s).kids + (a + b);
    assert Top(s).kids + [] == Top(s).kids;
  }

  /** Opening an element, filling it and closing it adds one finished child. */
  lemma OpenFillClose(s: Stack, tag: string, attrs: Attrs, kids: seq<Item>)
    requires !IsVoid(tag)
    ensures Step(Add(Step(s, Start(tag, attrs)), kids), End(tag)) == Add(s, [Element(tag, attrs, kids)])
  {
    var within := s + [Frame(tag, attrs, [])];
    var filled := Add(within, kids);
    assert within[..|s|] == s && [] + kids == kids;
    assert filled == s + [Frame(tag, attrs, kids)];
    assert filled[..|filled| - 1] == s;
    assert PopTo(filled, |s|) == Pop(filled);
  }

  lemma {:induction false} RunOne(s: Stack, m: Markup)
    requires WellFormed(m)
    ensures Run(s, Events(m)) == Add(s, [Meaning(m)])
    decreases m, 0
  {
    var es := Events(m);
    if m.Tag? && !m.slash && !IsVoid(m.tag) {
      var within := Step(s, Start(m.tag, m.attrs));
      BuilderUndoesSerializer(within, m.kids);
      RunConcat(within, AllEvents(m.kids), [End(m.tag)]);
      assert es[1..] == AllEvents(m.kids) + [End(m.tag)];
      OpenFillClose(s, m.tag, m.attrs, AllMeanings(m.kids));
      assert Run(Run(within, AllEvents(m.kids)), [End(m.tag)])
          == Step(Run(within, AllEvents(m.kids)), End(m.tag));
    } else {
      assert es[1..] == [];
      assert Run(s, es) == Step(s, es[0]);
    }
  }

  /** Fed the events of any well-formed forest, from any state, the builder appends exactly that
      forest to the cursor's children and leaves the cursor where it was. */
  lemma {:induction false} BuilderUndoesSerializer(s: Stack, ms: seq<Markup>)
    requires AllWellFormed(ms)
    ensures Run(s, AllEvents(ms)) == Add(s, AllMeanings(ms))
    decreases ms, 1
  {
    if ms == [] {
      AddTwice(s, [], []);
    } else {
      RunOne(s, ms[0]);
      RunConcat(s, Events(ms[0]), AllEvents(ms[1..]));
      BuilderUndoesSerializer(Add(s, [Meaning(ms[0])]), ms[1..]);
      AddTwice(s, [Meaning(ms[0])], AllMeanings(ms[1..]));
    }
  }

  /** From the empty tree the whole document comes back. */
  lemma DocumentRoundTrip(ms: seq<Markup>)
    requires AllWellFormed(ms)
    ensures Document(Run(EMPTY, AllEvents(ms))) == Element("root", map[], AllMeanings(ms))
  {
    BuilderUndoesSerializer(EMPTY, ms);
    assert [] + AllMeanings(ms) == AllMeanings(ms);
  }

  // ---------------------------------------------------------------------------
  // Document order, on any input
  // ---------------------------------------------------------------------------

  /** What the document shows in order: an element opened, or some text. */
  datatype Mark = Opened(tag: string, attrs: Attrs) | Said(text: string)

  function Marks(i: Item): seq<Mark> {
    match i
    case Text(text) => [Said(text)]
    case Element(tag, attrs, kids) => [Opened(tag, attrs)] + AllMarks(kids)
  }

  function AllMarks(items: seq<Item>): seq<Mark> {
    if items == [] then [] else Marks(items[0]) + AllMarks(items[1..])
  }

  function EventMark(e: Event): seq<Mark> {
    match e
    case Start(tag, attrs) => [Opened(tag, attrs)]
    case SelfClosing(tag, attrs) => [Opened(tag, attrs)]
    case Data(text) => [Said(text)]
    case End(_) => []
  }

  function EventMarks(es: seq<Event>): seq<Mark> {
    if es == [] then [] else EventMark(es[0]) + EventMarks(es[1..])
  }

  function FrameMarks(f: Frame): seq<Mark> { [Opened(f.tag, f.attrs)] + AllMarks(f.kids) }

  function StackMarks(s: seq<Frame>): seq<Mark> {
    if s == [] then [] else StackMarks(s[..|s| - 1]) + FrameMarks(s[|s| - 1])
  }

  lemma {:induction false} AllMarksConcat(a: seq<Item>, b: seq<Item>)
    ensures AllMarks(a + b) == AllMarks(a) + AllMarks(b)
    decreases |a|
  {
    if a == [] {
      assert a + b == b;
    } else {
      assert (a + b)[1..] == a[1..] + b;
      AllMarksConcat(a[1..], b);
    }
  }

  lemma Assoc(a: seq<Mark>, b: seq<Mark>, c: seq<Mark>)
    ensures (a + b) + c == a + (b + c)
  {
  }

  lemma PushMarks(below: seq<Frame>, f: Frame)
    ensures StackMarks(below + [f]) == StackMarks(below) + FrameMarks(f)
  {
    assert (below + [f])[..|below|] == below;
  }

  lemma AddMarks(s: Stack, i: Item)
    ensures StackMarks(Add(s, [i])) == StackMarks(s) + Marks(i)
  {
    var below, f := s[..|s| - 1], Top(s);
    var g := f.(kids := f.kids + [i]);
    AllMarksConcat(f.kids, [i]);
    assert AllMarks([i]) == Marks(i);
    assert FrameMarks(g) == FrameMarks(f) + Marks(i);
    PushMarks(below, f);
    PushMarks(below, g);
    assert s == below + [f];
    Assoc(StackMarks(below), FrameMarks(f), Marks(i));
  }

  lemma PopMarks(s: Stack)
    requires |s| > 1
    ensures StackMarks(Pop(s)) == StackMarks(s)
  {
    AddMarks(s[..|s| - 1], Element(Top(s).tag, Top(s).attrs, Top(s).kids));
  }

  lemma {:induction false} PopToMarks(s: Stack, n: nat)
    requires 0 < n <= |s|
    ensures StackMarks(PopTo(s, n)) == StackMarks(s)
    decreases |s|
  {
    if n < |s| {
      PopMarks(s);
      PopToMarks(Pop(s), n);
    }
  }

  lemma StepMarks(s: Stack, e: Event)
    ensures StackMarks(Step(s, e)) == StackMarks(s) + EventMark(e)
  {
    match e
    case Start(tag, attrs) =>
      AddMarks(s, Element(tag, attrs, []));
      assert (s + [Frame(tag, attrs, [])])[..|s|] == s;
    case SelfClosing(tag, attrs) => AddMarks(s, Element(tag, attrs, []));
    case Data(text) => AddMarks(s, Text(text));
    case End(tag) => if Match(s, tag) > 0 { PopToMarks(s, Match(s, tag)); }
  }

  lemma {:induction false} RunMarks(s: Stack, es: seq<Event>)
    ensures StackMarks(Run(s, es)) == StackMarks(s) + EventMarks(es)
    decreases |es|
  {
    if es != [] {
      StepMarks(s, es[0]);
      RunMarks(Step(s, es[0]), es[1..]);
      Assoc(StackMarks(s), EventMark(es[0]), EventMarks(es[1..]));
    }
  }

  /** For any events, balanced or not, the finished document shows its elements and its texts in
      the order of the start and data events, each once, under the root. */
  lemma DocumentOrder(es: seq<Event>)
    ensures Marks(Document(Run(EMPTY, es))) == [Opened("root", map[])] + EventMarks(es)
  {
    var s := Run(EMPTY, es);
    RunMarks(EMPTY, es);
    PopToMarks(s, 1);
    var closed := PopTo(s, 1);
    SingleMarks(closed);
    SingleMarks(EMPTY);
  }

  lemma SingleMarks(s: Stack)
    requires |s| == 1
    ensures StackMarks(s) == FrameMarks(s[0]) == Marks(Element(s[0].tag, s[0].attrs, s[0].kids))
  {
    assert s[..0] == [];
    assert [] + FrameMarks(s[0]) == FrameMarks(s[0]);
  }

  /** The in-order text of an item, and of data events. */
  function SaidText(ms: seq<Mark>): string {
    if ms == [] then "" else (if ms[0].Said? then ms[0].text else "") + SaidText(ms[1..])
  }

  function DataText(es: seq<Event>): string {
    if es == [] then "" else (if es[0].Data? then es[0].text else "") + DataText(es[1..])
  }

  lemma {:induction false} EventText(es: seq<Event>)
    ensures SaidText(EventMarks(es)) == DataText(es)
  {
    if es != [] {
      EventText(es[1..]);
      if es[0].End? {
        assert EventMarks(es) == EventMarks(es[1..]);
      } else {
        assert EventMarks(es)[1..] == EventMarks(es[1..]);
      }
    }
  }

  /** The text of the tree is the concatenation of all data events. */
  lemma DocumentText(es: seq<Event>)
    ensures SaidText(Marks(Document(Run(EMPTY, es)))) == DataText(es)
  {
    DocumentOrder(es);
    EventText(es);
    assert Marks(Document(Run(EMPTY, es)))[1..] == EventMarks(es);
  }

  // ---------------------------------------------------------------------------
  // End tags, and the path to the cursor
  // ---------------------------------------------------------------------------

  predicate HasOpen(s: Stack, tag: string) { exists i :: 0 < i < |s| && s[i].tag == tag }

  lemma {:induction false} MatchIsInnermost(s: Stack, tag: string)
    ensures Match(s, tag) > 0 <==> HasOpen(s, tag)
    ensures Match(s, tag) > 0 ==> s[Match(s, tag)].tag == tag
    ensures forall i :: Match(s, tag) < i < |s| ==> s[i].tag != tag
    decreases |s|
  {
    if |s| > 1 && Top(s).tag != tag {
      var below: Stack := s[..|s| - 1];
      MatchIsInnermost(below, tag);
      if HasOpen(below, tag) {
        var i :| 0 < i < |below| && below[i].tag == tag;
        assert s[i].tag == tag;
      }
    }
  }

  lemma {:induction false} PopToKeeps(s: Stack, n: nat)
    requires 0 < n <= |s|
    ensures PopTo(s, n)[..n - 1] == s[..n - 1]
    ensures PopTo(s, n)[n - 1].tag == s[n - 1].tag
    decreases |s|
  {
    if n < |s| {
      PopToKeeps(Pop(s), n);
      assert Pop(s)[..n - 1] == s[..n - 1];
    }
  }

  /** An end tag changes the tree's state exactly when an open element has its tag; it then
      leaves the cursor at the parent of the innermost such element, everything above untouched. */
  lemma EndTagClosesInnermost(s: Stack, tag: string)
    ensures var t := Step(s, End(tag));
            (t == s <==> !HasOpen(s, tag))
            && (HasOpen(s, tag) ==>
                  exists i :: 0 < i < |s| && s[i].tag == tag && (forall j :: i < j < |s| ==> s[j].tag != tag)
                              && |t| == i && t[..i - 1] == s[..i - 1] && t[i - 1].tag == s[i - 1].tag)
  {
    MatchIsInnermost(s, tag);
    var i := Match(s, tag);
    if i > 0 {
      PopToKeeps(s, i);
    }
  }

  predicate NoVoidOpen(s: Stack) { forall i :: 0 < i < |s| ==> !IsVoid(s[i].tag) }

  lemma StepNoVoid(s: Stack, e: Event)
    requires NoVoidOpen(s)
    ensures NoVoidOpen(Step(s, e))
  {
    if e.End? && Match(s, e.tag) > 0 {
      PopToKeeps(s, Match(s, e.tag));
      var t := PopTo(s, Match(s, e.tag));
      forall i | 0 < i < |t| ensures !IsVoid(t[i].tag) {
        assert i < |t| - 1 ==> t[..|t| - 1][i] == s[..|t| - 1][i];
      }
    }
  }

  /** No event sequence ever puts the cursor inside a void element, so the end tag of a void
      element changes nothing. */
  lemma {:induction false} VoidNeverOpen(s: Stack, es: seq<Event>)
    requires NoVoidOpen(s)
    ensures NoVoidOpen(Run(s, es))
    ensures forall tag :: IsVoid(tag) ==> Step(Run(s, es), End(tag)) == Run(s, es)
    decreases |es|
  {
    if es != [] {
      StepNoVoid(s, es[0]);
      VoidNeverOpen(Step(s, es[0]), es[1..]);
    } else {
      forall tag | IsVoid(tag) ensures Step(s, End(tag)) == s {
        EndTagClosesInnermost(s, tag);
      }
    }
  }

  /** The seven tags, by name. */
  predicate SevenVoid(tag: string) {
    || tag == "img" || tag == "br" || tag == "hr" || tag == "meta" || tag == "link" || tag == "input" || tag == "source"
  }

  lemma AddToTop(below: seq<Frame>, f: Frame, items: seq<Item>)
    ensures Add(below + [f], items) == below + [f.(kids := f.kids + items)]
  {
    assert (below + [f])[..|below|] == below;
  }

  /** Text after a start tag is its sibling for exactly those seven tags, and inside it for any other. */
  lemma TextAfterTag(tag: string, attrs: Attrs, text: string)
    ensures Document(Run(EMPTY, [Start(tag, attrs), Data(text)]))
            == Element("root", map[], if SevenVoid(tag) then [Element(tag, attrs, []), Text(text)]
                                      else [Element(tag, attrs, [Text(text)])])
  {
    var first, second := Start(tag, attrs), Data(text);
    assert [first, second][1..] == [second] && [second][1..] == [];
    var s := Step(EMPTY, first);
    assert Run(EMPTY, [first, second]) == Run(s, [second]) == Run(Step(s, second), []) == Step(s, second);
    var root := Frame("root", map[], []);
    var element := Element(tag, attrs, []);
    if SevenVoid(tag) {
      AddTwice(EMPTY, [element], [Text(text)]);
      AddToTop([], root, [element] + [Text(text)]);
      assert [] + [root] == EMPTY && [] + ([element] + [Text(text)]) == [element, Text(text)];
    } else {
      AddToTop(EMPTY, Frame(tag, attrs, []), [Text(text)]);
      var open := EMPTY + [Frame(tag, attrs, [Text(text)])];
      assert [] + [Text(text)] == [Text(text)] && Step(s, second) == open;
      assert open[..1] == EMPTY && Top(open) == Frame(tag, attrs, [Text(text)]);
      AddToTop([], root, [Element(tag, attrs, [Text(text)])]);
      assert [] + [root] == EMPTY && [] + [Element(tag, attrs, [Text(text)])] == [Element(tag, attrs, [Text(text)])];
      assert PopTo(open, 1) == Pop(open);
    }
  }
}
