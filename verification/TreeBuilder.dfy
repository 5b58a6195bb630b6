/** The HTML tree builder of extract_md.py: a tree with a cursor, driven by start,
    self-closing, end and data events, and what it makes of a document. */
module TreeBuilder {

  type Attrs = map<string, string>

  /** Tags that never hold children. */
  predicate IsVoid(tag: string) { tag in {"img", "br", "hr", "meta", "link", "input", "source"} }

  datatype Event = Start(tag: string, attrs: Attrs) | SelfClosing(tag: string, attrs: Attrs) | End(tag: string) | Data(text: string)

  /** A finished piece of the document. */
  datatype Item = Text(text: string) | Element(tag: string, attrs: Attrs, kids: seq<Item>)

  /** An element still open, with the children finished so far. */
  datatype Frame = Frame(tag: string, attrs: Attrs, kids: seq<Item>)

  /** The open elements from the root to the cursor. */
  type Stack = s: seq<Frame> | s != [] witness [Frame("root", map[], [])]

  const EMPTY: Stack := [Frame("root", map[], [])]

  // ---------------------------------------------------------------------------
  // Specification of the four handlers
  // ---------------------------------------------------------------------------

  function Top(s: Stack): Frame { s[|s| - 1] }

  function Add(s: Stack, items: seq<Item>): Stack {
    s[..|s| - 1] + [Top(s).(kids := Top(s).kids + items)]
  }

  /** The innermost open element with the tag, 0 (the root) if there is none. */
  function Match(s: Stack, tag: string): (i: nat)
    ensures i < |s|
    decreases |s|
  {
    if |s| == 1 || Top(s).tag == tag then |s| - 1 else Match(s[..|s| - 1], tag)
  }

  /** Finish the innermost open element. */
  function Pop(s: Stack): Stack
    requires |s| > 1
  {
    Add(s[..|s| - 1], [Element(Top(s).tag, Top(s).attrs, Top(s).kids)])
  }

  function PopTo(s: Stack, n: nat): (r: Stack)
    requires 0 < n <= |s|
    ensures |r| == n
    decreases |s|
  {
    if |s| == n then s else PopTo(Pop(s), n)
  }

  function Step(s: Stack, e: Event): Stack {
    match e
    case Start(tag, attrs) => if IsVoid(tag) then Add(s, [Element(tag, attrs, [])]) else s + [Frame(tag, attrs, [])]
    case SelfClosing(tag, attrs) => Add(s, [Element(tag, attrs, [])])
    case End(tag) => if Match(s, tag) == 0 then s else PopTo(s, Match(s, tag))
    case Data(text) => Add(s, [Text(text)])
  }

  function Run(s: Stack, es: seq<Event>): Stack
    decreases |es|
  {
    if es == [] then s else Run(Step(s, es[0]), es[1..])
  }

  /** The document: the root with everything still open finished. */
  function Document(s: Stack): Item {
    var root := PopTo(s, 1)[0];
    Element(root.tag, root.attrs, root.kids)
  }

  // ---------------------------------------------------------------------------
  // The objects
  // ---------------------------------------------------------------------------

  datatype Child = Str(text: string) | Kid(node: Node)

  class Node {
    const tag: string
    const attrs: Attrs
    var children: seq<Child>
    var parent: Node?
    ghost var done: seq<Item>  // the finished children
    ghost var depth: int       // position on the path to the cursor, -1 off it

    constructor (tag: string, attrs: Attrs, ghost depth: int)
      ensures this.tag == tag && this.attrs == attrs && children == [] && parent == null
      ensures done == [] && this.depth == depth
    {
      this.tag, this.attrs, this.children, this.parent := tag, attrs, [], null;
      this.done, this.depth := [], depth;
    }

    ghost function Open(): Frame
      reads this`done
    {
      Frame(tag, attrs, done)
    }
  }

  ghost predicate Unlinked(m: Node, n: Node)
    reads m
  {
    Kid(n) !in m.children
  }

  ghost function Frames(path: seq<Node>): (r: seq<Frame>)
    reads path`done
    ensures |r| == |path|
  {
    if path == [] then [] else Frames(path[..|path| - 1]) + [path[|path| - 1].Open()]
  }

  lemma {:induction false} FrameAt(path: seq<Node>, i: nat)
    requires i < |path|
    ensures Frames(path)[i] == path[i].Open()
    ensures Frames(path[..i + 1]) == Frames(path)[..i + 1]
    decreases |path|
  {
    if i < |path| - 1 {
      FrameAt(path[..|path| - 1], i);
      assert path[..|path| - 1][..i + 1] == path[..i + 1];
    } else {
      assert path[..i + 1] == path;
    }
  }

  lemma FramesAre(path: seq<Node>, fs: seq<Frame>)
    requires |path| == |fs| && forall i :: 0 <= i < |path| ==> path[i].Open() == fs[i]
    ensures Frames(path) == fs
  {
    forall i | 0 <= i < |path| ensures Frames(path)[i] == fs[i] { FrameAt(path, i); }
  }

  lemma FramesAll(path: seq<Node>, fs: seq<Frame>)
    requires fs == Frames(path)
    ensures forall i :: 0 <= i < |path| ==> fs[i] == path[i].Open()
  {
    forall i | 0 <= i < |path| ensures fs[i] == path[i].Open() { FrameAt(path, i); }
  }

  lemma SplitTwo(fs: Stack, up: Frame, n: Frame, grown: Frame)
    requires |fs| > 1 && fs[|fs| - 2] == up && fs[|fs| - 1] == n
    requires grown == up.(kids := up.kids + [Element(n.tag, n.attrs, n.kids)])
    ensures Pop(fs) == fs[..|fs| - 2] + [grown]
  {
    var below: Stack := fs[..|fs| - 1];
    assert below[..|fs| - 2] == fs[..|fs| - 2] && Top(below) == up;
  }

  lemma StepEnd(s: Stack, tag: string, k: nat)
    requires k == Match(s, tag)
    ensures Step(s, End(tag)) == if k == 0 then s else PopTo(s, k)
  {
  }

  class Tree {
    const root: Node
    var cur: Node
    ghost var path: seq<Node>
    ghost var repr: set<Node>

    /** What a finished child says of itself: a text, or a node off the path whose parent is n. */
    ghost predicate Finished(n: Node, child: Child, item: Item)
      reads this`repr, repr
    {
      match child
      case Str(text) => item == Text(text)
      case Kid(m) => m in repr && m.depth < 0 && m.parent == n && item == Element(m.tag, m.attrs, m.done)
    }

    /** `depth` is the position on the path, the path follows the parent links, and no node on it
        but the root is void. */
    ghost predicate PathAt(i: nat)
      requires i < |path|
      reads this`path, this`repr, repr
    {
      path[i] in repr && path[i].depth == i && (i > 0 ==> path[i].parent == path[i - 1] && !IsVoid(path[i].tag))
    }

    /** All children of a node are finished, save that a node on the path, other than its last,
        has one more: the next node of the path, last among them. */
    ghost predicate NodeAt(n: Node)
      reads this`path, this`repr, n, repr
    {
      && n.depth < |path| && (n.depth >= 0 ==> path[n.depth] == n)
      && (if n.depth < 0 || n.depth == |path| - 1 then |n.children| == |n.done|
          else |n.children| == |n.done| + 1 && n.children[|n.done|] == Kid(path[n.depth + 1]))
      && forall j {:trigger n.done[j]} :: 0 <= j < |n.done| ==> Finished(n, n.children[j], n.done[j])
    }

    ghost predicate OnPath()
      reads this`path, this`repr, repr
    {
      && path != [] && path[0] == root && root in repr && root.parent == null
      && (forall i {:trigger PathAt(i)} :: 0 <= i < |path| ==> PathAt(i))
      && (forall n {:trigger NodeAt(n)} :: n in repr ==> NodeAt(n))
    }

    ghost predicate Valid()
      reads this, repr
    {
      OnPath() && cur == path[|path| - 1]
    }

    ghost function Stack(): (s: Stack)
      requires OnPath()
      reads this, repr
    {
      assert forall i {:trigger path[i]} :: 0 <= i < |path| ==> PathAt(i);
      Frames(path)
    }

    constructor ()
      ensures Valid() && fresh(repr) && Stack() == EMPTY
    {
      var r := new Node("root", map[], 0);
      root, cur, path, repr := r, r, [r], {r};
    }

    /** `self.cur.children.append(...)` of something that stays finished. */
    method Append(child: Child, ghost item: Item)
      requires Valid() && Finished(cur, child, item)
      modifies cur`children, cur`done
      ensures Valid()
      ensures Stack() == Add(old(Stack()), [item])
    {
      ghost var last := |path| - 1;
      assert PathAt(last);
      cur.children := cur.children + [child];
      cur.done := cur.done + [item];
      forall i | 0 <= i < |path| ensures PathAt(i) {
        assert old(PathAt(i));
      }
      forall n | n in repr ensures NodeAt(n) {
        assert old(NodeAt(n));
        forall j | 0 <= j < |n.done| ensures Finished(n, n.children[j], n.done[j]) {
          assert (n == cur && j == |n.done| - 1) || (j < |old(n.done)| && n.done[j] == old(n.done)[j]);
        }
      }
      assert Frames(path[..last]) == old(Frames(path[..last])) by {
        forall i | 0 <= i < last ensures path[i] != cur { assert PathAt(i); }
      }
    }

    /** A new node, linked to the cursor but not yet among its children. */
    method NewChild(tag: string, attrs: Attrs) returns (n: Node)
      requires Valid()
      modifies this`repr
      ensures Valid() && repr == old(repr) + {n} && fresh(n)
      ensures n.tag == tag && n.attrs == attrs && n.parent == cur && n.depth == -1 && n.done == [] && n.children == []
      ensures Stack() == old(Stack())
    {
      n := new Node(tag, attrs, -1);
      n.parent := cur;
      repr := repr + {n};
      forall i | 0 <= i < |path| ensures PathAt(i) {
        assert old(PathAt(i));
      }
      forall m | m in repr ensures NodeAt(m) {
        assert m != n ==> old(NodeAt(m));
        assert m != n ==> forall j :: 0 <= j < |m.done| ==> old(Finished(m, m.children[j], m.done[j]));
      }
    }

    /** The new node becomes the last child of the cursor and the cursor itself. */
    method Descend(n: Node)
      requires Valid() && n in repr && !IsVoid(n.tag)
      requires n.parent == cur && n.depth < 0 && n.done == [] && n.children == []
      requires forall m {:trigger Unlinked(m, n)} :: m in repr ==> Unlinked(m, n)
      modifies this`cur, this`path, cur`children, n`depth
      ensures Valid()
      ensures Stack() == old(Stack()) + [Frame(n.tag, n.attrs, [])]
    {
      assert PathAt(|path| - 1);
      ghost var was := path;
      cur.children := cur.children + [Kid(n)];
      cur := n;
      n.depth := |path|;
      path := path + [n];
      forall i | 0 <= i < |path| ensures PathAt(i) {
        assert i < |was| ==> old(PathAt(i)) && was[i] != n;
      }
      forall m | m in repr ensures NodeAt(m) {
        assert old(NodeAt(m) && Unlinked(m, n));
        forall j | 0 <= j < |m.done| ensures Finished(m, m.children[j], m.done[j]) {
          assert old(Finished(m, m.children[j], m.done[j]));
        }
      }
      assert path[..|was|] == was;
      assert Frames(was) == old(Frames(path)) by {
        forall i | 0 <= i < |was| ensures was[i] != n { assert old(PathAt(i)); }
      }
    }

    method HandleStartTag(tag: string, attrs: Attrs)
      requires Valid()
      modifies this, repr
      ensures Valid() && old(repr) <= repr && fresh(repr - old(repr))
      ensures Stack() == Step(old(Stack()), Start(tag, attrs))
    {
      var n := NewChild(tag, attrs);
      assert PathAt(|path| - 1);
      if IsVoid(tag) {
        Append(Kid(n), Element(tag, attrs, []));
      } else {
        Descend(n);
      }
    }

    method HandleStartEndTag(tag: string, attrs: Attrs)
      requires Valid()
      modifies this, repr
      ensures Valid() && old(repr) <= repr && fresh(repr - old(repr))
      ensures Stack() == Step(old(Stack()), SelfClosing(tag, attrs))
    {
      var n := NewChild(tag, attrs);
      assert PathAt(|path| - 1);
      Append(Kid(n), Element(tag, attrs, []));
    }

    method HandleData(data: string)
      requires Valid()
      modifies this, repr
      ensures Valid() && repr == old(repr)
      ensures Stack() == Step(old(Stack()), Data(data))
    {
      assert PathAt(|path| - 1);
      Append(Str(data), Text(data));
    }

    ghost method LeaveLast(n: Node, up: Node)
      requires OnPath() && |path| > 1 && n == path[|path| - 1] && up == path[|path| - 2]
      modifies this`path, n`depth, up`done
      ensures OnPath() && path == old(path)[..|old(path)| - 1]
      ensures up.done == old(up.done) + [Element(n.tag, n.attrs, n.done)]
      ensures forall i :: 0 <= i < |path| - 1 ==> path[i] != up
    {
      assert PathAt(|path| - 1) && PathAt(|path| - 2) && NodeAt(n) && NodeAt(up);
      up.done := up.done + [Element(n.tag, n.attrs, n.done)];
      n.depth := -1;
      path := path[..|path| - 1];
      forall i | 0 <= i < |path| ensures PathAt(i) {
        assert old(PathAt(i));
      }
      forall m | m in repr ensures NodeAt(m) {
        assert old(NodeAt(m));
        forall j | 0 <= j < |m.done| ensures Finished(m, m.children[j], m.done[j]) {
          assert (m == up && j == |m.done| - 1) || (j < |old(m.done)| && m.done[j] == old(m.done)[j]);
        }
      }
      forall i | 0 <= i < |path| - 1 ensures path[i] != up { assert PathAt(i); }
    }

    /** Moving the cursor up one node finishes the node it leaves. */
    ghost method PopPath(n: Node, up: Node)
      requires OnPath() && |path| > 1 && n == path[|path| - 1] && up == path[|path| - 2]
      modifies this`path, n`depth, up`done
      ensures OnPath() && path == old(path)[..|old(path)| - 1]
      ensures Stack() == Pop(old(Stack()))
    {
      var was, fs, below := path, Frames(path), |path| - 2;
      var f, g := up.Open(), n.Open();
      var h := f.(kids := f.kids + [Element(g.tag, g.attrs, g.kids)]);
      FramesAll(was, fs);
      SplitTwo(fs, f, g, h);
      LeaveLast(n, up);
      var target := fs[..below] + [h];
      forall i | 0 <= i < |path| ensures path[i].Open() == target[i] {
        assert was[i] == path[i] && fs[i] == old(was[i].Open());
      }
      FramesAre(path, target);
    }

    lemma MatchStep(tag: string, k: nat)
      requires OnPath() && k < |path|
      ensures path[k] in repr && (path[k] == root <==> k == 0)
      ensures k > 0 ==> path[k].parent == path[k - 1]
      ensures Match(Stack()[..k + 1], tag)
              == if k == 0 || path[k].tag == tag then k else Match(Stack()[..k], tag)
    {
      assert PathAt(k) && PathAt(0);
      FrameAt(path, k);
      assert Stack()[..k + 1][..k] == Stack()[..k];
    }

    /** The climb: the innermost node on the path with the tag, or the root. */
    method Climb(tag: string) returns (node: Node, ghost k: nat)
      requires Valid()
      ensures k == Match(Stack(), tag) && k < |path| && node == path[k]
      ensures node == root <==> k == 0
    {
      node, k := cur, |path| - 1;
      ghost var s := Stack();
      assert s[..k + 1] == s;
      MatchStep(tag, k);
      while node != root && node.tag != tag
        invariant k < |path| && node == path[k] && (node == root <==> k == 0)
        invariant Match(s, tag) == Match(s[..k + 1], tag)
        decreases k
      {
        MatchStep(tag, k);
        node := node.parent;
        k := k - 1;
        MatchStep(tag, k);
      }
      MatchStep(tag, k);
    }

    ghost method PopPathTo(k: nat)
      requires OnPath() && 0 < k <= |path|
      modifies this`path, repr`depth, repr`done
      ensures OnPath() && path == old(path)[..k]
      ensures Stack() == PopTo(old(Stack()), k)
      decreases |path|
    {
      if k < |path| {
        assert PathAt(|path| - 1) && PathAt(|path| - 2);
        PopPath(path[|path| - 1], path[|path| - 2]);
        PopPathTo(k);
      }
    }

    method HandleEndTag(tag: string)
      requires Valid()
      modifies this, repr
      ensures Valid() && repr == old(repr)
      ensures Stack() == Step(old(Stack()), End(tag))
    {
      ghost var k;
      var node;
      node, k := Climb(tag);
      MatchStep(tag, k);
      StepEnd(Stack(), tag, k);
      if node != root && node.parent != null {
        PopPathTo(k);
        cur := node.parent;
      }
    }

    /** How far a node is from the end of the path; nothing for one off it. */
    ghost function Rank(n: Node): nat
      reads this`path, n`depth
    {
      if 0 <= n.depth < |path| then |path| - n.depth else 0
    }

    /** A child of a node is closer to the end of the path, or finished within a finished one. */
    lemma ChildBelow(n: Node, j: nat)
      requires OnPath() && n in repr && j < |n.children| && n.children[j].Kid?
      ensures var m := n.children[j].node;
              m in repr && (Rank(m) < Rank(n) || (Rank(m) == Rank(n) && j < |n.done| && n.done[j] == Element(m.tag, m.attrs, m.done)))
    {
      assert NodeAt(n);
      if j < |n.done| {
        assert n.done[j] == n.done[j] && Finished(n, n.children[j], n.done[j]);
      } else {
        assert PathAt(n.depth + 1);
      }
    }

    /** What a reader finds in the children of a node from the j-th on. */
    function Read(n: Node, j: nat): seq<Item>
      requires OnPath() && n in repr && j <= |n.children|
      reads this, repr
      decreases Rank(n), n.done, |n.children| - j
    {
      if j == |n.children| then []
      else
        match n.children[j]
        case Str(text) => [Text(text)] + Read(n, j + 1)
        case Kid(m) =>
          ChildBelow(n, j);
          [Element(m.tag, m.attrs, Read(m, 0))] + Read(n, j + 1)
    }

    /** `Node.descendants`: the elements among the children from the j-th on, each before its own. */
    function Descendants(n: Node, j: nat): seq<Node>
      requires OnPath() && n in repr && j <= |n.children|
      reads this, repr
      decreases Rank(n), n.done, |n.children| - j
    {
      if j == |n.children| then []
      else
        match n.children[j]
        case Str(_) => Descendants(n, j + 1)
        case Kid(m) =>
          ChildBelow(n, j);
          [m] + Descendants(m, 0) + Descendants(n, j + 1)
    }
  }
}
