/** The `key=value` trailer scanner of tools/crypto_latency_harness.py and the printer
    that emits what it reads. Values stay raw strings: literal evaluation is left out. */
module KvBlob {
  import opened Wrappers

  datatype Binding = Binding(key: string, value: string)

  predicate EndsKey(c: char) { c == '=' || c == ' ' || c == '\t' }

  function Delta(c: char): int { if c == '{' then 1 else if c == '}' then -1 else 0 }

  // ---------------------------------------------------------------------------
  // Specification of the scanner
  // ---------------------------------------------------------------------------

  function SpaceRun(s: string): (n: nat)
    ensures n <= |s|
  {
    if s != "" && IsSpace(s[0]) then 1 + SpaceRun(s[1..]) else 0
  }

  function KeyRun(s: string): (n: nat)
    ensures n <= |s|
  {
    if s != "" && !EndsKey(s[0]) then 1 + KeyRun(s[1..]) else 0
  }

  function TokenRun(s: string): (n: nat)
    ensures n <= |s|
  {
    if s != "" && !IsSpace(s[0]) then 1 + TokenRun(s[1..]) else 0
  }

  /** Characters up to and including the brace that brings depth back to zero, or all of s. */
  function BlockRun(s: string, depth: int): (n: nat)
    ensures n <= |s|
  {
    if s == "" then 0
    else if s[0] == '}' && depth == 1 then 1
    else 1 + BlockRun(s[1..], depth + Delta(s[0]))
  }

  function ValueRun(s: string): (n: nat)
    ensures n <= |s|
  {
    if s != "" && s[0] == '{' then BlockRun(s, 0) else TokenRun(s)
  }

  /** One binding off text with no leading space, and the text after it. `None` at the end of
      the text and at a word with no `=`. */
  function ScanWord(t: string): (r: Option<(Binding, string)>)
    ensures r.Some? ==> |r.value.1| < |t|
  {
    var k := KeyRun(t);
    if k == |t| || t[k] != '=' then None
    else
      var v := t[k + 1..];
      Some((Binding(t[..k], v[..ValueRun(v)]), v[ValueRun(v)..]))
  }

  function ScanOne(s: string): (r: Option<(Binding, string)>)
    ensures r.Some? ==> |r.value.1| < |s|
  {
    ScanWord(s[SpaceRun(s)..])
  }

  /** The bindings in the order they are scanned. */
  function Parse(s: string): seq<Binding>
    decreases |s|
  {
    match ScanOne(s)
    case None => []
    case Some((b, rest)) => [b] + Parse(rest)
  }

  /** The dictionary the bindings leave behind. */
  function ToMap(bs: seq<Binding>): map<string, string> {
    if bs == [] then map[]
    else var last := bs[|bs| - 1]; ToMap(bs[..|bs| - 1])[last.key := last.value]
  }

  // ---------------------------------------------------------------------------
  // The scanner
  // ---------------------------------------------------------------------------

  method ParseKvBlob(text: string) returns (out: map<string, string>)
    ensures out == ToMap(Parse(text))
  {
    out := map[];
    var i, n := 0, |text|;
    ghost var all, done: seq<Binding> := Parse(text), [];
    assert text[0..] == text;
    while i < n
      invariant 0 <= i <= n
      invariant all == done + Parse(text[i..])
      invariant out == ToMap(done)
    {
      var b, next := ScanBinding(text, i);
      if b == None {
        ParseNoMore(text[i..]);
        assert done + [] == done;
        return;
      }
      Advance(all, done, b.value, text[i..], text[next..]);
      done := done + [b.value];
      out := out[b.value.key := b.value.value];
      i := next;
    }
    ParseEmpty();
    assert text[n..] == "" && done + [] == done;
  }

  lemma Advance(all: seq<Binding>, done: seq<Binding>, b: Binding, s: string, rest: string)
    requires all == done + Parse(s) && ScanOne(s) == Some((b, rest))
    ensures all == (done + [b]) + Parse(rest)
    ensures ToMap(done + [b]) == ToMap(done)[b.key := b.value]
  {
    ParseMore(s, b, rest);
    ToMapExtend(done, b);
  }

  /** The body of the scanner's loop; `None` where the loop breaks. */
  method ScanBinding(text: string, from: nat) returns (b: Option<Binding>, i: nat)
    requires from < |text|
    ensures b == None ==> ScanOne(text[from..]) == None
    ensures b.Some? ==> from < i <= |text| && ScanOne(text[from..]) == Some((b.value, text[i..]))
  {
    var keyStart := ScanSpaces(text, from);
    if keyStart >= |text| {
      EmptyWord(text[keyStart..]);
      return None, keyStart;
    }
    var keyEnd := ScanKey(text, keyStart);
    if keyEnd >= |text| || text[keyEnd] != '=' {
      return None, keyEnd;
    }
    var valStart := keyEnd + 1;
    i := ScanValue(text, valStart);
    b := Some(Binding(text[keyStart..keyEnd], text[valStart..i]));
    Scanned(text[from..], text[keyStart..], text[valStart..], keyEnd - keyStart, b.value, text[i..]);
  }

  lemma EmptyWord(t: string)
    requires t == ""
    ensures ScanWord(t) == None
  {
  }

  lemma Scanned(s: string, t: string, v: string, k: nat, b: Binding, rest: string)
    requires t == s[SpaceRun(s)..]
    requires k == KeyRun(t) && k < |t| && t[k] == '=' && b.key == t[..k] && v == t[k + 1..]
    requires b.value == v[..ValueRun(v)] && rest == v[ValueRun(v)..]
    ensures ScanOne(s) == Some((b, rest))
  {
  }

  lemma ToMapExtend(done: seq<Binding>, b: Binding)
    ensures ToMap(done + [b]) == ToMap(done)[b.key := b.value]
  {
    assert (done + [b])[..|done|] == done;
  }

  method ScanValue(text: string, start: nat) returns (i: nat)
    requires start <= |text|
    ensures start <= i <= |text|
    ensures text[start..i] == text[start..][..ValueRun(text[start..])]
    ensures text[i..] == text[start..][ValueRun(text[start..])..]
  {
    if start < |text| && text[start] == '{' {
      i := ScanBlock(text, start);
    } else {
      i := ScanToken(text, start);
    }
  }

  method ScanSpaces(text: string, start: nat) returns (i: nat)
    requires start <= |text|
    ensures start <= i <= |text| && text[i..] == text[start..][SpaceRun(text[start..])..]
  {
    i := start;
    while i < |text| && IsSpace(text[i])
      invariant start <= i <= |text|
      invariant start + SpaceRun(text[start..]) == i + SpaceRun(text[i..])
    {
      assert text[i..][1..] == text[i + 1..];
      i := i + 1;
    }
  }

  method ScanKey(text: string, start: nat) returns (i: nat)
    requires start <= |text|
    ensures start <= i <= |text| && KeyRun(text[start..]) == i - start
    ensures i == |text| || text[i] != '=' ==> ScanWord(text[start..]) == None
    ensures i < |text| ==> text[start..][i - start] == text[i]
                           && text[start..i] == text[start..][..i - start]
                           && text[i + 1..] == text[start..][i - start + 1..]
  {
    i := start;
    while i < |text| && !EndsKey(text[i])
      invariant start <= i <= |text|
      invariant start + KeyRun(text[start..]) == i + KeyRun(text[i..])
    {
      assert text[i..][1..] == text[i + 1..];
      i := i + 1;
    }
  }

  method ScanToken(text: string, start: nat) returns (i: nat)
    requires start <= |text|
    ensures i == start + TokenRun(text[start..])
  {
    i := start;
    while i < |text| && !IsSpace(text[i])
      invariant start <= i <= |text|
      invariant start + TokenRun(text[start..]) == i + TokenRun(text[i..])
    {
      assert text[i..][1..] == text[i + 1..];
      i := i + 1;
    }
  }

  method ScanBlock(text: string, start: nat) returns (i: nat)
    requires start < |text| && text[start] == '{'
    ensures i == start + BlockRun(text[start..], 0)
  {
    var depth := 0;
    i := start;
    while i < |text|
      invariant start <= i <= |text|
      invariant i == start ==> depth == 0
      invariant i > start ==> depth > 0
      invariant start + BlockRun(text[start..], 0) == i + BlockRun(text[i..], depth)
    {
      var ch := text[i];
      assert text[i..][1..] == text[i + 1..];
      if ch == '{' {
        depth := depth + 1;
      } else if ch == '}' {
        depth := depth - 1;
        if depth == 0 {
          i := i + 1;
          return;
        }
      }
      i := i + 1;
    }
  }

  // ---------------------------------------------------------------------------
  // The printer
  // ---------------------------------------------------------------------------

  function PrintOne(b: Binding): string { b.key + "=" + b.value }

  function PrintMore(bs: seq<Binding>): string {
    if bs == [] then "" else " " + (PrintOne(bs[0]) + PrintMore(bs[1..]))
  }

  /** `" ".join(...)` over the printed pairs. */
  function Print(bs: seq<Binding>): string {
    if bs == [] then "" else PrintOne(bs[0]) + PrintMore(bs[1..])
  }

  function Kept(e: (string, Option<string>)): seq<Binding> {
    if e.1.Some? then [Binding(e.0, e.1.value)] else []
  }

  /** The pairs whose value is not None. */
  function Present(extra: seq<(string, Option<string>)>): seq<Binding> {
    if extra == [] then [] else Kept(extra[0]) + Present(extra[1..])
  }

  /** The loop of `_normalize_for_aggregator` over the extra data and the final join. */
  method PrintExtra(extra: seq<(string, Option<string>)>) returns (line: string)
    ensures line == Print(Present(extra))
  {
    var parts: seq<Binding> := [];
    for j := 0 to |extra|
      invariant parts == Present(extra[..j])
    {
      PresentSnoc(extra[..j], extra[j]);
      assert extra[..j + 1] == extra[..j] + [extra[j]];
      if extra[j].1.Some? {
        parts := parts + [Binding(extra[j].0, extra[j].1.value)];
      }
    }
    assert extra[..|extra|] == extra;
    line := Print(parts);
  }

  lemma {:induction false} PresentSnoc(extra: seq<(string, Option<string>)>, e: (string, Option<string>))
    ensures Present(extra + [e]) == Present(extra) + Kept(e)
    decreases |extra|
  {
    if extra == [] {
      assert [e][1..] == [] && extra + [e] == [e];
      assert Present([e]) == Kept(e) + Present([]) == Kept(e);
    } else {
      var all := extra + [e];
      assert all[1..] == extra[1..] + [e] && all[0] == extra[0];
      PresentSnoc(extra[1..], e);
      assert Kept(extra[0]) + (Present(extra[1..]) + Kept(e)) == (Kept(extra[0]) + Present(extra[1..])) + Kept(e);
    }
  }

  /** How many of the pairs have a value. */
  function Count(extra: seq<(string, Option<string>)>): nat {
    if extra == [] then 0 else Count(extra[..|extra| - 1]) + (if extra[|extra| - 1].1 == None then 0 else 1)
  }

  /** Every pair with a value comes out, its key as key and its value as value, at the place of the pairs
      with a value before it, and nothing else does. */
  lemma {:induction false} PresentIs(extra: seq<(string, Option<string>)>)
    ensures |Present(extra)| == Count(extra)
    ensures forall i :: 0 <= i < |extra| && extra[i].1.Some? ==>
              Count(extra[..i]) < Count(extra)
              && Present(extra)[Count(extra[..i])] == Binding(extra[i].0, extra[i].1.value)
    decreases |extra|
  {
    if extra != [] {
      var front, last := extra[..|extra| - 1], extra[|extra| - 1];
      assert extra == front + [last];
      PresentSnoc(front, last);
      PresentIs(front);
      forall i | 0 <= i < |extra| && extra[i].1.Some?
        ensures Count(extra[..i]) < Count(extra)
                && Present(extra)[Count(extra[..i])] == Binding(extra[i].0, extra[i].1.value)
      {
        assert extra[..i] == front[..i];
        if i < |front| { assert front[i] == extra[i]; } else { assert front[..i] == front; }
      }
    }
  }

  // ---------------------------------------------------------------------------
  // What survives the round trip
  // ---------------------------------------------------------------------------

  /** Opening minus closing braces among the first i characters. */
  function Depth(s: string, i: nat): int
    requires i <= |s|
  {
    if i == 0 then 0 else Depth(s, i - 1) + Delta(s[i - 1])
  }

  predicate GoodKey(k: string) {
    (forall i :: 0 <= i < |k| ==> !EndsKey(k[i])) && (k != "" ==> !IsSpace(k[0]))
  }

  predicate Token(v: string) {
    (forall i :: 0 <= i < |v| ==> !IsSpace(v[i])) && (v != "" ==> v[0] != '{')
  }

  predicate OpenAt(v: string, i: nat)
    requires i <= |v|
  {
    Depth(v, i) > 0
  }

  /** Opens a brace that is still open after every proper, nonempty prefix up to n characters. */
  predicate OpenUpTo(v: string, n: nat)
    requires n <= |v| + 1
  {
    v != "" && v[0] == '{' && forall i {:trigger OpenAt(v, i)} :: 0 < i < n ==> OpenAt(v, i)
  }

  /** The braces first balance after n characters, or n is all and they never do. */
  predicate StopsAt(v: string, n: nat) {
    n <= |v| && OpenUpTo(v, n) && (Depth(v, n) == 0 || (n == |v| && OpenUpTo(v, n + 1)))
  }

  predicate ClosedBlock(v: string) { OpenUpTo(v, |v|) && Depth(v, |v|) == 0 }

  predicate UnclosedBlock(v: string) { OpenUpTo(v, |v| + 1) }

  predicate GoodBinding(b: Binding, last: bool) {
    GoodKey(b.key) && (Token(b.value) || ClosedBlock(b.value) || (last && UnclosedBlock(b.value)))
  }

  /** Good keys; values are tokens or blocks that first balance at their last character.
      Only the last value may be a block that never balances. */
  predicate Printable(bs: seq<Binding>) {
    forall i :: 0 <= i < |bs| ==> GoodBinding(bs[i], i == |bs| - 1)
  }

  /** Depths depend on nothing after them. */
  lemma {:induction false} DepthPrefix(v: string, w: string, i: nat)
    requires i <= |v| && i <= |w| && v[..i] == w[..i]
    ensures Depth(v, i) == Depth(w, i)
    decreases i
  {
    if i > 0 {
      assert v[..i][..i - 1] == v[..i - 1] && w[..i][..i - 1] == w[..i - 1];
      assert v[i - 1] == v[..i][i - 1] && w[i - 1] == w[..i][i - 1];
      DepthPrefix(v, w, i - 1);
    }
  }

  lemma OpenPrefix(v: string, w: string, n: nat)
    requires n <= |v| + 1 && n <= |w| + 1 && v != "" && w != "" && OpenUpTo(v, n)
    requires v[0] == w[0] && forall i :: 0 <= i < n && i <= |v| && i <= |w| ==> v[..i] == w[..i]
    ensures OpenUpTo(w, n)
  {
    forall i | 0 < i < n ensures OpenAt(w, i) { assert OpenAt(v, i); DepthPrefix(v, w, i); }
  }

  /** One character of the block scan. */
  lemma BlockRunStep(v: string, i: nat, depth: int)
    requires i < |v|
    ensures BlockRun(v[i..], depth)
            == if v[i] == '}' && depth == 1 then 1 else 1 + BlockRun(v[i + 1..], depth + Delta(v[i]))
  {
    assert v[i..][1..] == v[i + 1..] && v[i..][0] == v[i];
  }

  lemma OpenStep(v: string, i: nat)
    requires i < |v| && OpenUpTo(v, i + 1) && Depth(v, i + 1) > 0
    ensures OpenUpTo(v, i + 2)
  {
    assert OpenAt(v, i + 1);
  }

  /** An open block's depth is positive, so a closing brace at depth 1 is its end. */
  lemma NextDepth(v: string, i: nat)
    requires i < |v| && OpenUpTo(v, i + 1)
    ensures if v[i] == '}' && Depth(v, i) == 1 then Depth(v, i + 1) == 0
            else Depth(v, i + 1) == Depth(v, i) + Delta(v[i]) > 0
  {
    if i > 0 { assert OpenAt(v, i); }
  }

  /** What the block scan stops at: the first balance, or the end of the text. */
  lemma {:induction false} BlockRunMeaning(v: string, i: nat)
    requires i <= |v| && OpenUpTo(v, i + 1)
    ensures StopsAt(v, i + BlockRun(v[i..], Depth(v, i)))
    decreases |v| - i
  {
    if i < |v| {
      BlockRunStep(v, i, Depth(v, i));
      NextDepth(v, i);
      if v[i] != '}' || Depth(v, i) != 1 {
        OpenStep(v, i);
        BlockRunMeaning(v, i + 1);
      }
    } else {
      assert BlockRun(v[i..], Depth(v, i)) == 0;
    }
  }

  /** A text that opens with a block stops where the block does. */
  lemma FirstBalance(v: string, w: string, n: nat)
    requires |v| <= |w| && w[..|v|] == v && StopsAt(w, n) && n > 0
    requires ClosedBlock(v) || (UnclosedBlock(v) && w == v)
    ensures n == |v|
  {
    assert forall i :: 0 <= i <= |v| ==> v[..i] == w[..i];
    DepthPrefix(v, w, |v|);
    assert |v| < n && v != "" ==> OpenAt(w, |v|);
    if n < |v| {
      assert OpenAt(v, n);
      DepthPrefix(v, w, n);
    }
  }

  lemma BlockRunBlock(v: string, tail: string)
    requires ClosedBlock(v) || (UnclosedBlock(v) && tail == "")
    ensures BlockRun(v + tail, 0) == |v|
  {
    var w := v + tail;
    assert forall i :: 0 <= i <= |v| ==> v[..i] == w[..i];
    BlockRunMeaning(w, 0);
    assert w[0..] == w;
    var n := BlockRun(w, 0);
    assert n > 0 by { assert BlockRun(w, 0) == 1 + BlockRun(w[1..], 1); }
    FirstBalance(v, w, n);
  }

  lemma {:induction false} SpaceRunStops(s: string)
    ensures SpaceRun(s) < |s| ==> !IsSpace(s[SpaceRun(s)])
    decreases |s|
  {
    if s != "" { SpaceRunStops(s[1..]); }
  }

  lemma {:induction false} KeyRunStops(s: string)
    ensures KeyRun(s) < |s| ==> EndsKey(s[KeyRun(s)])
    ensures forall i :: 0 <= i < KeyRun(s) ==> !EndsKey(s[i])
    decreases |s|
  {
    if s != "" { KeyRunStops(s[1..]); }
  }

  lemma {:induction false} TokenRunStops(s: string)
    ensures TokenRun(s) < |s| ==> IsSpace(s[TokenRun(s)])
    ensures forall i :: 0 <= i < TokenRun(s) ==> !IsSpace(s[i])
    decreases |s|
  {
    if s != "" { TokenRunStops(s[1..]); }
  }

  lemma KeyRunOfPrinted(k: string, rest: string)
    requires GoodKey(k)
    ensures SpaceRun(k + "=" + rest) == 0 && KeyRun(k + "=" + rest) == |k|
  {
    var s := k + "=" + rest;
    assert s[0] == if k == "" then '=' else k[0];
    KeyRunStops(s);
    assert s[|k|] == '=' && forall i :: 0 <= i < |k| ==> s[i] == k[i];
  }

  lemma ValueRunOfPrinted(v: string, tail: string)
    requires Token(v) || ClosedBlock(v) || (UnclosedBlock(v) && tail == "")
    requires tail == "" || tail[0] == ' '
    ensures ValueRun(v + tail) == |v|
  {
    var w := v + tail;
    assert forall i :: 0 <= i < |v| ==> w[i] == v[i];
    if Token(v) {
      TokenRunStops(w);
      assert tail != "" ==> w[|v|] == ' ';
      assert w != "" ==> w[0] != '{';
    } else {
      BlockRunBlock(v, tail);
    }
  }

  lemma PrintedParts(b: Binding, tail: string)
    ensures var s, v, k := PrintOne(b) + tail, b.value + tail, |b.key|;
            && s == b.key + "=" + v && s[0..] == s
            && k < |s| && s[..k] == b.key && s[k] == '=' && s[k + 1..] == v
            && v[..|b.value|] == b.value && v[|b.value|..] == tail
  {
    var s, v := PrintOne(b) + tail, b.value + tail;
    assert s == b.key + "=" + v;
  }

  lemma ParseOne(b: Binding, tail: string)
    requires GoodBinding(b, tail == "")
    requires tail == "" || tail[0] == ' '
    ensures ScanOne(PrintOne(b) + tail) == Some((b, tail))
  {
    var s, v := PrintOne(b) + tail, b.value + tail;
    PrintedParts(b, tail);
    KeyRunOfPrinted(b.key, v);
    ValueRunOfPrinted(b.value, tail);
    Scanned(s, s, v, |b.key|, b, tail);
  }

  lemma ParseSkipsSpace(s: string)
    ensures Parse(" " + s) == Parse(s)
  {
    var w := " " + s;
    assert w[1..] == s && w[0] == ' ';
    assert SpaceRun(w) == 1 + SpaceRun(s);
    assert w[SpaceRun(w)..] == s[SpaceRun(s)..];
    assert ScanOne(w) == ScanOne(s);
  }

  lemma ParseMore(s: string, b: Binding, rest: string)
    requires ScanOne(s) == Some((b, rest))
    ensures Parse(s) == [b] + Parse(rest)
  {
  }

  lemma ParseNoMore(s: string)
    requires ScanOne(s) == None
    ensures Parse(s) == []
  {
  }

  lemma PrintableSplit(b: Binding, bs: seq<Binding>)
    ensures Printable([b] + bs) <==> GoodBinding(b, bs == []) && Printable(bs)
  {
    var all := [b] + bs;
    assert all[0] == b;
    if Printable(all) {
      forall i | 0 <= i < |bs| ensures GoodBinding(bs[i], i == |bs| - 1) {
        assert all[i + 1] == bs[i];
      }
    }
    if GoodBinding(b, bs == []) && Printable(bs) {
      forall i | 0 <= i < |all| ensures GoodBinding(all[i], i == |all| - 1) {
        assert i > 0 ==> all[i] == bs[i - 1];
      }
    }
  }

  lemma ParseFirst(b: Binding, tail: string, rest: seq<Binding>)
    requires GoodBinding(b, tail == "") && (tail == "" || tail[0] == ' ') && Parse(tail) == rest
    ensures Parse(PrintOne(b) + tail) == [b] + rest
  {
    ParseOne(b, tail);
    ParseMore(PrintOne(b) + tail, b, tail);
  }

  lemma {:induction false} ParsePrintedMore(bs: seq<Binding>)
    requires Printable(bs)
    ensures Parse(PrintMore(bs)) == bs
    decreases |bs|
  {
    if bs == [] {
      ParseEmpty();
    } else {
      var b, more := bs[0], bs[1..];
      assert bs == [b] + more;
      PrintableSplit(b, more);
      ParsePrintedMore(more);
      ParseFirst(b, PrintMore(more), more);
      ParseSkipsSpace(PrintOne(b) + PrintMore(more));
    }
  }

  lemma ParsePrinted(bs: seq<Binding>)
    requires Printable(bs)
    ensures Parse(Print(bs)) == bs
  {
    ParsePrintedMore(bs);
    if bs != [] {
      ParseSkipsSpace(Print(bs));
    }
  }

  /** Whatever the text, what is scanned out of it can be printed and scanned again. */
  lemma {:induction false} ParseIsPrintable(s: string)
    ensures Printable(Parse(s))
    decreases |s|
  {
    if ScanOne(s).Some? {
      var (head, rest) := ScanOne(s).value;
      ScannedIsGood(s);
      ParseIsPrintable(rest);
      ParseMore(s, head, rest);
      PrintableSplit(head, Parse(rest));
    }
  }

  lemma ScannedIsGood(s: string)
    requires ScanOne(s).Some?
    ensures GoodBinding(ScanOne(s).value.0, Parse(ScanOne(s).value.1) == [])
  {
    var t := s[SpaceRun(s)..];
    SpaceRunStops(s);
    assert GoodKey(t[..KeyRun(t)]) by { KeyRunStops(t); }
    ScannedValue(t[KeyRun(t) + 1..]);
  }

  lemma ScannedValue(v: string)
    ensures var w := v[..ValueRun(v)];
            Token(w) || ClosedBlock(w) || (Parse(v[ValueRun(v)..]) == [] && UnclosedBlock(w))
  {
    if v != "" && v[0] == '{' {
      assert v[0..] == v;
      BlockRunMeaning(v, 0);
      PrefixOpen(v, ValueRun(v));
      if ValueRun(v) == |v| { ParseEmpty(); assert v[|v|..] == ""; }
    } else {
      TokenRunStops(v);
    }
  }

  lemma ParseEmpty()
    ensures Parse("") == []
  {
  }

  lemma PrefixOpen(v: string, n: nat)
    requires v != "" && v[0] == '{' && n == BlockRun(v, 0) && StopsAt(v, n)
    ensures ClosedBlock(v[..n]) || (n == |v| && UnclosedBlock(v[..n]))
  {
    assert n > 0 by { assert BlockRun(v, 0) == 1 + BlockRun(v[1..], 1); }
    var w := v[..n];
    assert forall i :: 0 <= i <= n ==> v[..i] == w[..i];
    DepthPrefix(v, w, n);
    if Depth(v, n) == 0 { OpenPrefix(v, w, n); } else { assert w == v; }
  }

  /** Printing bindings and scanning the line gives back exactly those raw bindings, in order,
      if and only if they are printable. */
  lemma PrintParseIff(bs: seq<Binding>)
    ensures Parse(Print(bs)) == bs <==> Printable(bs)
  {
    ParseIsPrintable(Print(bs));
    if Printable(bs) { ParsePrinted(bs); }
  }

  lemma ParsePrintParse(s: string)
    ensures Parse(Print(Parse(s))) == Parse(s)
  {
    ParseIsPrintable(s);
    ParsePrinted(Parse(s));
  }

  /** In the dictionary the last binding of a key wins, and there is nothing else. */
  lemma {:induction false} LastOneWins(bs: seq<Binding>, k: string)
    ensures k in ToMap(bs) <==> exists i :: 0 <= i < |bs| && bs[i].key == k
    ensures forall i :: 0 <= i < |bs| && bs[i].key == k && (forall j :: i < j < |bs| ==> bs[j].key != k)
                        ==> k in ToMap(bs) && ToMap(bs)[k] == bs[i].value
    decreases |bs|
  {
    if bs != [] {
      var front, last := bs[..|bs| - 1], bs[|bs| - 1];
      LastOneWins(front, k);
      if last.key == k { assert bs[|bs| - 1].key == k; }
      forall i | 0 <= i < |front| && front[i].key == k ensures bs[i].key == k {
      }
    }
  }

  // ---------------------------------------------------------------------------
  // Keys and nested blocks
  // ---------------------------------------------------------------------------

  predicate PlainKey(key: string) {
    key != "" && !IsSpace(key[0]) && forall i :: 0 <= i < |key| ==> key[i] != '=' && key[i] != ' ' && key[i] != '\t'
  }

  lemma EndedKey(key: string, c: char, rest: string)
    requires PlainKey(key) && (c == '=' || c == ' ' || c == '\t')
    ensures var s := key + ([c] + rest);
            KeyRun(s) == |key| && s[|key|] == c && SpaceRun(s) == 0 && s[0..] == s
  {
    var s := key + ([c] + rest);
    KeyRunStops(s);
    assert s[|key|] == c && forall i :: 0 <= i < |key| ==> s[i] == key[i];
  }

  /** A blank or a tab after a key ends the scan; any other white space inside a key is part of it. */
  lemma KeyEnds(key: string, c: char, rest: string)
    requires PlainKey(key) && (c == ' ' || c == '\t')
    ensures Parse(key + ([c] + rest)) == []
  {
    EndedKey(key, c, rest);
    assert ScanWord(key + ([c] + rest)) == None;
  }

  lemma KeyReads(key: string, value: string)
    requires PlainKey(key) && Token(value)
    ensures Parse(key + "=" + value) == [Binding(key, value)]
  {
    var b := Binding(key, value);
    assert GoodBinding(b, true);
    ParseEmpty();
    ParseFirst(b, "", []);
    assert PrintOne(b) + "" == key + "=" + value;
  }

  /** Text with blocks of braces nested in it. */
  datatype Nest = Leaf(text: string) | Block(kids: seq<Nest>)

  predicate NoBraces(s: string) { forall i :: 0 <= i < |s| ==> s[i] != '{' && s[i] != '}' }

  predicate Proper(n: Nest) {
    match n
    case Leaf(text) => NoBraces(text)
    case Block(kids) => forall k :: k in kids ==> Proper(k)
  }

  function Show(n: Nest): string {
    match n
    case Leaf(text) => text
    case Block(kids) => "{" + (ShowAll(kids) + "}")
  }

  function ShowAll(ns: seq<Nest>): string {
    if ns == [] then "" else Show(ns[0]) + ShowAll(ns[1..])
  }

  predicate NotBelow(s: string, i: nat)
    requires i <= |s|
  {
    Depth(s, i) >= 0
  }

  /** As many braces close as open, and none before its own. */
  predicate Level(s: string) {
    Depth(s, |s|) == 0 && forall i {:trigger NotBelow(s, i)} :: 0 <= i <= |s| ==> NotBelow(s, i)
  }

  lemma {:induction false} DepthConcat(a: string, b: string, i: nat)
    requires i <= |b|
    ensures Depth(a + b, |a| + i) == Depth(a, |a|) + Depth(b, i)
    decreases i
  {
    if i == 0 {
      assert (a + b)[..|a|] == a[..|a|];
      DepthPrefix(a + b, a, |a|);
    } else {
      DepthConcat(a, b, i - 1);
      assert (a + b)[|a| + i - 1] == b[i - 1];
    }
  }

  lemma LevelConcat(a: string, b: string)
    requires Level(a) && Level(b)
    ensures Level(a + b)
  {
    DepthConcat(a, b, |b|);
    forall i | 0 <= i <= |a + b| ensures NotBelow(a + b, i) {
      if i <= |a| {
        assert NotBelow(a, i) && (a + b)[..i] == a[..i];
        DepthPrefix(a + b, a, i);
      } else {
        assert NotBelow(b, i - |a|);
        DepthConcat(a, b, i - |a|);
      }
    }
  }

  lemma {:induction false} LeafDepth(s: string, i: nat)
    requires NoBraces(s) && i <= |s|
    ensures Depth(s, i) == 0
    decreases i
  {
    if i > 0 { LeafDepth(s, i - 1); }
  }

  lemma LeafLevel(s: string)
    requires NoBraces(s)
    ensures Level(s)
  {
    LeafDepth(s, |s|);
    forall i | 0 <= i <= |s| ensures NotBelow(s, i) { LeafDepth(s, i); }
  }

  /** The depth inside a wrapped text is one more than in the text. */
  lemma WrappedDepth(s: string, i: nat)
    requires i <= |s|
    ensures Depth("{" + (s + "}"), 1 + i) == 1 + Depth(s, i)
  {
    var w := s + "}";
    assert Depth("{", 1) == Depth("{", 0) + 1;
    DepthConcat("{", w, i);
    assert w[..i] == s[..i];
    DepthPrefix(w, s, i);
  }

  lemma WrappedEnd(s: string)
    requires Depth(s, |s|) == 0
    ensures Depth("{" + (s + "}"), |s| + 2) == 0
  {
    WrappedDepth(s, |s|);
    var all := "{" + (s + "}");
    assert all[|s| + 1] == '}';
  }

  lemma WrappedIsClosed(s: string)
    requires Level(s)
    ensures ClosedBlock("{" + (s + "}")) && Level("{" + (s + "}"))
  {
    var all := "{" + (s + "}");
    WrappedEnd(s);
    forall i | 0 < i < |all| ensures OpenAt(all, i) {
      WrappedDepth(s, i - 1);
      assert NotBelow(s, i - 1);
    }
    forall i | 0 <= i <= |all| ensures NotBelow(all, i) { assert 0 < i < |all| ==> OpenAt(all, i); }
  }

  lemma {:induction false} ShowIsLevel(n: Nest)
    requires Proper(n)
    ensures Level(Show(n)) && (n.Block? ==> ClosedBlock(Show(n)))
    decreases n, 0
  {
    match n
    case Leaf(text) => LeafLevel(text);
    case Block(kids) =>
      ShowAllIsLevel(kids);
      WrappedIsClosed(ShowAll(kids));
  }

  lemma {:induction false} ShowAllIsLevel(ns: seq<Nest>)
    requires forall n :: n in ns ==> Proper(n)
    ensures Level(ShowAll(ns))
    decreases ns, 1
  {
    if ns == [] {
      LeafLevel("");
    } else {
      ShowIsLevel(ns[0]);
      ShowAllIsLevel(ns[1..]);
      LevelConcat(Show(ns[0]), ShowAll(ns[1..]));
    }
  }

  /** A value of properly nested braces is read whole, whatever else is in it, and the scan goes on
      after it. */
  lemma NestedBlocksRead(key: string, kids: seq<Nest>, more: seq<Binding>)
    requires PlainKey(key) && Proper(Block(kids)) && Printable(more)
    ensures var b := Binding(key, Show(Block(kids)));
            Parse(Print([b] + more)) == [b] + more
  {
    var b := Binding(key, Show(Block(kids)));
    ShowIsLevel(Block(kids));
    PrintableSplit(b, more);
    PrintParseIff([b] + more);
  }
}
