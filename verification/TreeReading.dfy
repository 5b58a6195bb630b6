/** What a reader of the finished tree finds: the node objects and their children (extract_md.py)
    hold exactly the document the handlers were given, in its order. */
module TreeReading {
  import opened TreeBuilder
  import opened TreeBuilderRuns

  // ---------------------------------------------------------------------------
  // Reading the objects is reading the document
  // ---------------------------------------------------------------------------

  /** The children of the i-th open element with everything open inside it finished. */
  function Closed(s: seq<Frame>, i: nat): seq<Item>
    requires i < |s|
    decreases |s| - i
  {
    s[i].kids + (if i + 1 < |s| then [Element(s[i + 1].tag, s[i + 1].attrs, Closed(s, i + 1))] else [])
  }

  lemma {:induction false} ClosedPop(s: Stack, i: nat)
    requires i + 1 < |s|
    ensures Closed(Pop(s), i) == Closed(s, i)
    decreases |s| - i
  {
    var p := Pop(s);
    if i + 2 < |s| {
      ClosedPop(s, i + 1);
      assert p[i] == s[i] && p[i + 1].tag == s[i + 1].tag && p[i + 1].attrs == s[i + 1].attrs;
    } else {
      assert Closed(s, i + 1) == s[i + 1].kids + [] == s[i + 1].kids;
      assert p[i].kids == s[i].kids + [Element(s[i + 1].tag, s[i + 1].attrs, s[i + 1].kids)];
      assert Closed(p, i) == p[i].kids + [] == p[i].kids;
    }
  }

  lemma {:induction false} DocumentIsClosed(s: Stack)
    ensures Document(s) == Element(s[0].tag, s[0].attrs, Closed(s, 0))
    decreases |s|
  {
    if |s| > 1 {
      ClosedPop(s, 0);
      DocumentIsClosed(Pop(s));
      assert Pop(s)[0].tag == s[0].tag && Pop(s)[0].attrs == s[0].attrs;
    } else {
      assert Closed(s, 0) == s[0].kids + [] == s[0].kids;
    }
  }

  /** The finished children read as what they are recorded to be; then comes the open one, if any. */
  lemma {:induction false} ReadFinished(t: Tree, n: Node, j: nat)
    requires t.OnPath() && n in t.repr && t.NodeAt(n) && j <= |n.done|
    ensures t.Read(n, j) == n.done[j..] + t.Read(n, |n.done|)
    decreases t.Rank(n), n.done, |n.done| - j
  {
    if j == |n.done| {
      assert n.done[j..] == [];
    } else {
      ReadFinished(t, n, j + 1);
      assert t.Finished(n, n.children[j], n.done[j]) by { assert n.done[j] == n.done[j]; }
      ReadOne(t, n, j);
      assert n.done[j..] == [n.done[j]] + n.done[j + 1..];
    }
  }

  lemma ReadOne(t: Tree, n: Node, j: nat)
    requires t.OnPath() && n in t.repr && t.NodeAt(n) && j < |n.done|
    requires t.Finished(n, n.children[j], n.done[j])
    ensures t.Read(n, j) == [n.done[j]] + t.Read(n, j + 1)
    decreases t.Rank(n), n.done, |n.done| - j, 0
  {
    if n.children[j].Kid? {
      var m := n.children[j].node;
      t.ChildBelow(n, j);
      assert t.NodeAt(m);
      ReadFinished(t, m, 0);
      assert |m.children| == |m.done| && t.Read(m, |m.done|) == [];
      assert t.Read(m, 0) == m.done[0..] + [] == m.done;
      assert t.Read(n, j) == [Element(m.tag, m.attrs, t.Read(m, 0))] + t.Read(n, j + 1);
    }
  }

  lemma {:induction false} ReadPath(t: Tree, i: nat)
    requires t.OnPath() && i < |t.path|
    ensures t.path[i] in t.repr && t.Read(t.path[i], 0) == Closed(t.Stack(), i)
    decreases |t.path| - i
  {
    var n := t.path[i];
    assert t.PathAt(i);
    assert t.NodeAt(n);
    FrameAt(t.path, i);
    ReadFinished(t, n, 0);
    assert n.done[0..] == n.done;
    if i + 1 < |t.path| {
      ReadPath(t, i + 1);
      FrameAt(t.path, i + 1);
      assert t.Read(n, |n.children|) == [];
    }
  }

  /** At any moment, what a reader finds from the root down is the document. */
  lemma ReadIsDocument(t: Tree)
    requires t.Valid()
    ensures t.root in t.repr && Element(t.root.tag, t.root.attrs, t.Read(t.root, 0)) == Document(t.Stack())
  {
    ReadPath(t, 0);
    DocumentIsClosed(t.Stack());
    FrameAt(t.path, 0);
  }

  // ---------------------------------------------------------------------------
  // The descendants, in order
  // ---------------------------------------------------------------------------

  function IfElement(m: Mark): seq<Mark> { if m.Opened? then [m] else [] }

  /** The elements of a document, its texts left out. */
  function Elements(ms: seq<Mark>): seq<Mark> {
    if ms == [] then [] else IfElement(ms[0]) + Elements(ms[1..])
  }

  function NodeMarks(ns: seq<Node>): seq<Mark> {
    if ns == [] then [] else [Opened(ns[0].tag, ns[0].attrs)] + NodeMarks(ns[1..])
  }

  lemma {:induction false} ElementsConcat(a: seq<Mark>, b: seq<Mark>)
    ensures Elements(a + b) == Elements(a) + Elements(b)
    decreases |a|
  {
    if a == [] {
      assert a + b == b;
    } else {
      var all := a + b;
      assert all[0] == a[0] && all[1..] == a[1..] + b;
      ElementsConcat(a[1..], b);
      Assoc(IfElement(a[0]), Elements(a[1..]), Elements(b));
      assert Elements(all) == IfElement(a[0]) + Elements(all[1..]);
    }
  }

  lemma {:induction false} NodeMarksConcat(a: seq<Node>, b: seq<Node>)
    ensures NodeMarks(a + b) == NodeMarks(a) + NodeMarks(b)
    decreases |a|
  {
    if a == [] {
      assert a + b == b;
    } else {
      assert (a + b)[1..] == a[1..] + b;
      NodeMarksConcat(a[1..], b);
    }
  }

  lemma {:induction false} DescendantsAre(t: Tree, n: Node, j: nat)
    requires t.OnPath() && n in t.repr && j <= |n.children|
    ensures NodeMarks(t.Descendants(n, j)) == Elements(AllMarks(t.Read(n, j)))
    decreases t.Rank(n), n.done, |n.children| - j
  {
    if j < |n.children| {
      DescendantsAre(t, n, j + 1);
      match n.children[j]
      case Str(text) =>
        AllMarksConcat([Text(text)], t.Read(n, j + 1));
        assert AllMarks([Text(text)]) == [Said(text)];
        ElementsConcat([Said(text)], AllMarks(t.Read(n, j + 1)));
      case Kid(m) =>
        t.ChildBelow(n, j);
        DescendantsAre(t, m, 0);
        KidMarks(m.tag, m.attrs, t.Read(m, 0), t.Read(n, j + 1));
        NodeMarksConcat([m] + t.Descendants(m, 0), t.Descendants(n, j + 1));
        NodeMarksConcat([m], t.Descendants(m, 0));
        assert NodeMarks([m]) == [Opened(m.tag, m.attrs)];
    }
  }

  lemma KidMarks(tag: string, attrs: Attrs, kids: seq<Item>, more: seq<Item>)
    ensures Elements(AllMarks([Element(tag, attrs, kids)] + more))
            == ([Opened(tag, attrs)] + Elements(AllMarks(kids))) + Elements(AllMarks(more))
  {
    var one := [Element(tag, attrs, kids)];
    AllMarksConcat(one, more);
    assert AllMarks(one) == [Opened(tag, attrs)] + AllMarks(kids);
    ElementsConcat(AllMarks(one), AllMarks(more));
    ElementsConcat([Opened(tag, attrs)], AllMarks(kids));
    assert Elements([Opened(tag, attrs)]) == [Opened(tag, attrs)];
  }

  // ---------------------------------------------------------------------------
  // Whole documents
  // ---------------------------------------------------------------------------

  /** `feed`: each event to its handler. */
  method Feed(t: Tree, es: seq<Event>)
    requires t.Valid()
    modifies t, t.repr
    ensures t.Valid() && old(t.repr) <= t.repr && fresh(t.repr - old(t.repr))
    ensures t.Stack() == Run(old(t.Stack()), es)
  {
    ghost var s := t.Stack();
    for i := 0 to |es|
      invariant t.Valid() && old(t.repr) <= t.repr && fresh(t.repr - old(t.repr))
      invariant t.Stack() == Run(s, es[..i])
    {
      RunConcat(s, es[..i], [es[i]]);
      assert es[..i + 1] == es[..i] + [es[i]];
      assert Run(t.Stack(), [es[i]]) == Step(t.Stack(), es[i]);
      match es[i]
      case Start(tag, attrs) => t.HandleStartTag(tag, attrs);
      case SelfClosing(tag, attrs) => t.HandleStartEndTag(tag, attrs);
      case End(tag) => t.HandleEndTag(tag);
      case Data(text) => t.HandleData(text);
    }
    assert es[..|es|] == es;
  }

  /** Of any events fed to a new tree, even unbalanced, the node objects that `descendants` yields from
      the root are those of the start tags, in their order, and the texts found on the way are the
      data, in theirs. */
  lemma DescendantsInOrder(t: Tree, es: seq<Event>)
    requires t.Valid() && t.Stack() == Run(EMPTY, es)
    ensures t.root in t.repr
    ensures AllMarks(t.Read(t.root, 0)) == EventMarks(es)
    ensures NodeMarks(t.Descendants(t.root, 0)) == Elements(EventMarks(es))
    ensures SaidText(AllMarks(t.Read(t.root, 0))) == DataText(es)
  {
    ReadIsDocument(t);
    DocumentOrder(es);
    DescendantsAre(t, t.root, 0);
    EventText(es);
    var kids := t.Read(t.root, 0);
    assert Marks(Document(t.Stack()))[1..] == AllMarks(kids);
    assert ([Opened("root", map[])] + EventMarks(es))[1..] == EventMarks(es);
  }
}
