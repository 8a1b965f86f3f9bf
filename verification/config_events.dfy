// What a text says line by line, and which texts load: those in which the tags match.
module ConfigEvents {

  import opened ConfigTree
  import opened ConfigRoundTrip

  datatype Event = Opening(name: string) | Closing(name: string) | Item(node: Node) | Nothing

  // Reading a tree from its outside: sections open and close around what is in them.

  function EventsOf(n: Node): seq<Event>
    decreases n, 1
  {
    match n
    case Section(name, children) => [Opening(name)] + Events(children) + [Closing(name)]
    case _ => [Item(n)]
  }

  function Events(ns: seq<Node>): seq<Event>
    decreases ns, 0
  {
    if ns == [] then [] else Events(ns[..|ns| - 1]) + EventsOf(ns[|ns| - 1])
  }

  // Every tag that opens is closed in turn, by the same name.
  ghost predicate Matching(es: seq<Event>) {
    exists ns :: Events(ns) == es
  }

  function Real(es: seq<Event>): seq<Event> {
    if es == [] then []
    else Real(es[..|es| - 1]) + if es[|es| - 1].Nothing? then [] else [es[|es| - 1]]
  }

  // How an event may be written on a line of its own.

  predicate Blank(s: string) {
    forall i :: 0 <= i < |s| ==> IsBlank(s[i])
  }

  predicate TagName(name: string) {
    '\n' !in name && ']' !in name
  }

  // A tag in either kind of brackets.
  predicate TagText(s: string, name: string) {
    && TagName(name)
    && (s == "[" + name + "]" || ('>' !in name && s == "<" + name + ">"))
  }

  predicate PlainText(s: string) {
    Plain(s) && '"' !in s
  }

  ghost predicate LeafWritten(s: string, name: string, value: string) {
    && PlainText(name) && PlainText(value) && name != "" && '=' !in name
    && name[0] != '#' && name[0] != '[' && name[0] != '<'
    && exists b, c, d :: Blank(b) && Blank(c) && Blank(d) && s == name + b + "=" + c + value + d
  }

  ghost predicate CommentWritten(s: string, name: string) {
    && Plain(name)
    && exists b, c :: Blank(b) && Blank(c) && s == "#" + b + name + c
  }

  ghost predicate Text(s: string, e: Event) {
    match e
    case Opening(name) => name != "" && name[0] != '/' && name[0] != '!' && TagText(s, name)
    case Closing(name) => TagText(s, "/" + name) || TagText(s, "!" + name)
    case Item(Leaf(name, value)) => |s| > 2 && LeafWritten(s, name, value)
    case Item(Comment(name)) => |s| > 2 && CommentWritten(s, name)
    case Item(Section(_, _)) => false
    case Nothing => |s| <= 2
  }

  ghost predicate Writes(line: string, e: Event) {
    '\n' !in line && exists b, s :: Blank(b) && line == b + s && Text(s, e)
  }

  ghost predicate WrittenAs(lines: seq<string>, es: seq<Event>) {
    |lines| == |es| && forall i :: 0 <= i < |lines| ==> Writes(lines[i], es[i])
  }

  // The lines with newlines between them.
  function Joined(lines: seq<string>): string {
    if lines == [] then "" else if |lines| == 1 then lines[0] else lines[0] + "\n" + Joined(lines[1..])
  }

  // What an event does to a tree under construction.

  function Apply(st: State, e: Event): State {
    match e
    case Opening(name) => Enter(st, name)
    case Closing(name) => Leave(st, name)
    case Item(n) => Create(st, n)
    case Nothing => st
  }

  function Replay(es: seq<Event>, st: State): State {
    if es == [] then st else Apply(Replay(es[..|es| - 1], st), es[|es| - 1])
  }

  // Lines.

  lemma {:induction false} TrimBlanks(b: string, s: string)
    requires Blank(b)
    ensures TrimLeft(b + s) == TrimLeft(s)
  {
    if b == "" {
      assert b + s == s;
    } else {
      assert (b + s)[1..] == b[1..] + s;
      TrimBlanks(b[1..], s);
    }
  }

  lemma {:induction false} TrimBlanksAfter(s: string, b: string)
    requires Blank(b)
    ensures TrimRight(s + b) == TrimRight(s)
  {
    if b == "" {
      assert s + b == s;
    } else {
      assert (s + b)[..|s + b| - 1] == s + b[..|b| - 1];
      TrimBlanksAfter(s, b[..|b| - 1]);
    }
  }

  lemma {:induction false} TrimLeftKeeps(s: string, b: string)
    requires s != "" && !IsBlank(s[0])
    ensures TrimLeft(s + b) == s + b
  {
  }

  // A plain text is found again between blanks.
  lemma TrimAround(b: string, s: string, c: string)
    requires Blank(b) && Blank(c) && Trim(s) == s
    ensures Trim(b + s + c) == s
  {
    assert b + s + c == b + (s + c);
    TrimBlanks(b, s + c);
    if s == "" {
      assert s + c == c + "";
      TrimBlanks(c, "");
    } else {
      TrimmedEnds(s);
      TrimLeftKeeps(s, c);
      TrimBlanksAfter(s, c);
      assert TrimLeft(s) == s;
    }
  }

  lemma {:induction false} BlanksSkipped(s: string, st: State)
    ensures ParseRest(TrimLeft(s), st) == ParseRest(s, st)
  {
    if s != "" && IsBlank(s[0]) {
      BlanksSkipped(s[1..], st);
      if |s| <= 2 {
        NotLonger(s[1..]);
      }
    }
  }

  lemma StartsWith(b: string, s: string, st: State)
    requires Blank(b)
    ensures ParseLine(b + s, st) == ParseRest(s, st)
  {
    TrimBlanks(b, s);
    BlanksSkipped(s, st);
  }

  // The text of a tag, with whatever follows on the line.
  lemma TagReads(s: string, name: string, rest: string, st: State)
    requires TagText(s, name) && name != "" && |s| > 2 && (s[0] == '<' ==> ']' !in rest)
    ensures Tag(s + rest, st) == if name[0] == '/' || name[0] == '!' then Leave(st, name[1..]) else Enter(st, name)
    ensures TagEnd(s + rest) == |s| - 1
  {
    var line, end := s + rest, |name| + 1;
    assert line[1..end] == name && line[2..end] == name[1..] && line[1] == name[0];
    if s[0] == '[' {
      assert line[..end] == "[" + name;
      FirstAt(line, ']', end);
    } else {
      assert line[..end] == "<" + name;
      assert ']' !in line;
      Nowhere(line, ']');
      FirstAt(line, '>', end);
    }
  }

  lemma TagLine(s: string, name: string, st: State)
    requires TagText(s, name) && name != "" && !st.Failed?
    ensures ParseRest(s, st) == if name[0] == '/' || name[0] == '!' then Leave(st, name[1..]) else Enter(st, name)
  {
    assert s + "" == s;
    assert |s| == |name| + 2;
    TagReads(s, name, "", st);
  }

  lemma LeafSplits(s: string, name: string, b: string, c: string, value: string, d: string)
    requires PlainText(name) && PlainText(value) && name != "" && '=' !in name
    requires Blank(b) && Blank(c) && Blank(d) && s == name + b + "=" + c + value + d
    ensures LeafOf(s) == Leaf(name, value) && s[0] == name[0] && !IsBlank(name[0])
  {
    hide Unquote, IndexOf, TrimLeft, TrimRight;
    NothingToUnquote(s);
    var eq := |name| + |b|;
    assert s[..eq] == name + b;
    FirstAt(s, '=', eq);
    assert s[eq + 1..] == c + value + d;
    assert "" + name + b == name + b;
    TrimAround("", name, b);
    TrimAround(c, value, d);
    TrimmedEnds(name);
  }

  lemma LeafReads(s: string, name: string, value: string, st: State)
    requires |s| > 2 && LeafWritten(s, name, value)
    ensures ParseRest(s, st) == Create(st, Leaf(name, value))
  {
    hide LeafOf, Tag, TagEnd, Trim, PlainText, Blank;
    var b, c, d :| Blank(b) && Blank(c) && Blank(d) && s == name + b + "=" + c + value + d;
    LeafSplits(s, name, b, c, value, d);
  }

  lemma CommentReads(s: string, name: string, st: State)
    requires |s| > 2 && CommentWritten(s, name)
    ensures ParseRest(s, st) == Create(st, Comment(name))
  {
    hide TrimLeft, TrimRight;
    var b, c :| Blank(b) && Blank(c) && s == "#" + b + name + c;
    assert s[1..] == b + name + c;
    TrimAround(b, name, c);
  }

  lemma TextReads(s: string, e: Event, st: State)
    requires Text(s, e)
    ensures ParseRest(s, st) == Apply(st, e)
  {
    hide ParseRest, Tag, TagText;
    if st.Failed? {
      FailedStays(s);
    } else {
      match e
      case Opening(name) => TagLine(s, name, st);
      case Closing(name) =>
        assert ("/" + name)[1..] == name && ("!" + name)[1..] == name;
        if TagText(s, "/" + name) { TagLine(s, "/" + name, st); } else { TagLine(s, "!" + name, st); }
      case Item(Leaf(name, value)) => LeafReads(s, name, value, st);
      case Item(Comment(name)) => CommentReads(s, name, st);
      case Nothing => ShortIgnored(s, st);
    }
  }

  lemma FailedStays(s: string)
    ensures ParseRest(s, Failed) == Failed
  {
  }

  lemma ShortIgnored(s: string, st: State)
    requires |s| <= 2
    ensures ParseRest(s, st) == st
  {
  }

  lemma LineReads(line: string, e: Event, st: State)
    requires Writes(line, e)
    ensures ParseLine(line, st) == Apply(st, e)
  {
    hide ParseLine, ParseRest, Text;
    var b, s :| Blank(b) && line == b + s && Text(s, e);
    StartsWith(b, s, st);
    TextReads(s, e, st);
  }

  // What follows a tag on its line is read as a line of its own.
  lemma TagThenRest(s: string, name: string, rest: string, st: State)
    requires TagText(s, name) && name != "" && rest != "" && (s[0] == '<' ==> ']' !in rest) && !st.Failed?
    ensures ParseLine(s + rest, st) == ParseLine(rest, ParseLine(s, st))
  {
    hide Tag, TagEnd;
    assert |s| == |name| + 2;
    TagReads(s, name, rest, st);
    TagReads(s, name, "", st);
    assert s + "" == s && (s + rest)[|s|..] == rest && (s + rest)[0] == s[0];
    BlanksSkipped(rest, ParseLine(s, st));
    FailedStays(rest);
  }

  // Texts.

  lemma {:induction false} LoadJoined(a: string, b: string, st: State)
    ensures LoadText(a + "\n" + b, st) == LoadText(b, LoadText(a, st))
    decreases |a|
  {
    hide ParseLine;
    var end := IndexOf(a, '\n');
    if end == |a| {
      LoadLine(a, b, st);
    } else {
      var line, rest := a[..end], a[end + 1..];
      assert a == line + "\n" + rest;
      assert a + "\n" + b == line + "\n" + (rest + "\n" + b);
      LoadLine(line, rest + "\n" + b, st);
      LoadLine(line, rest, st);
      LoadJoined(rest, b, ParseLine(line, st));
    }
  }

  lemma {:induction false} ReplayParts(a: seq<Event>, b: seq<Event>, st: State)
    ensures Replay(a + b, st) == Replay(b, Replay(a, st))
  {
    if b == [] {
      assert a + b == a;
    } else {
      assert (a + b)[..|a + b| - 1] == a + b[..|b| - 1];
      ReplayParts(a, b[..|b| - 1], st);
    }
  }

  lemma ReplayOne(e: Event, st: State)
    ensures Replay([e], st) == Apply(st, e)
  {
    assert [e][..0] == [];
  }

  lemma LoadSingle(line: string, st: State)
    requires '\n' !in line
    ensures LoadText(line, st) == ParseLine(line, st)
  {
    Nowhere(line, '\n');
  }

  lemma {:induction false} LoadReplays(lines: seq<string>, es: seq<Event>, st: State)
    requires WrittenAs(lines, es)
    ensures LoadText(Joined(lines), st) == Replay(es, st)
  {
    hide LoadText, ParseLine, Writes, Apply;
    if lines == [] {
      LoadSingle("", st);
      NothingRead(st);
    } else {
      LineReads(lines[0], es[0], st);
      ReplayOne(es[0], st);
      NoNewline(lines[0], es[0]);
      if |lines| == 1 {
        LoadSingle(lines[0], st);
        assert es == [es[0]];
      } else {
        LoadLine(lines[0], Joined(lines[1..]), st);
        LoadReplays(lines[1..], es[1..], ParseLine(lines[0], st));
        assert es == [es[0]] + es[1..];
        ReplayParts([es[0]], es[1..], st);
      }
    }
  }

  lemma NothingRead(st: State)
    ensures ParseLine("", st) == st
  {
  }

  lemma NoNewline(line: string, e: Event)
    requires Writes(line, e)
    ensures '\n' !in line
  {
  }

  lemma {:induction false} RealReplays(es: seq<Event>, st: State)
    ensures Replay(Real(es), st) == Replay(es, st)
  {
    if es != [] {
      var front, e := es[..|es| - 1], es[|es| - 1];
      RealReplays(front, st);
      if e.Nothing? {
        assert Real(es) == Real(front);
      } else {
        ReplayParts(Real(front), [e], st);
        ReplayOne(e, Replay(Real(front), st));
      }
    }
  }

  // Trees grow as their events say.

  lemma {:induction false} EventsParts(a: seq<Node>, b: seq<Node>)
    ensures Events(a + b) == Events(a) + Events(b)
  {
    if b == [] {
      assert a + b == a;
    } else {
      assert (a + b)[..|a + b| - 1] == a + b[..|b| - 1];
      EventsParts(a, b[..|b| - 1]);
    }
  }

  lemma EventsOfOne(n: Node)
    ensures Events([n]) == EventsOf(n)
  {
    assert [n][..0] == [];
  }

  lemma {:induction false} NodeReplays(n: Node, path: seq<Open>)
    requires path != []
    ensures Replay(EventsOf(n), At(path)) == Grown(path, [n])
    decreases n, 1
  {
    hide Replay, Enter, Leave, Create, Grown;
    match n
    case Section(name, children) =>
      var inner := Enter(At(path), name);
      EnterOpens(path, name);
      ReplayOne(Opening(name), At(path));
      NodesReplay(children, inner.path);
      ReplayParts([Opening(name)], Events(children), At(path));
      ReplayOne(Closing(name), Grown(inner.path, children));
      ReplayParts([Opening(name)] + Events(children), [Closing(name)], At(path));
      SectionGrows(path, name, children);
    case _ =>
      ReplayOne(Item(n), At(path));
      GrowNode(path, n);
  }

  lemma EnterOpens(path: seq<Open>, name: string)
    requires path != []
    ensures Enter(At(path), name).At? && Enter(At(path), name).path != []
  {
  }

  lemma GrownByNone(path: seq<Open>)
    requires path != []
    ensures Grown(path, []) == At(path)
  {
    assert path[|path| - 1].children + [] == path[|path| - 1].children;
  }

  lemma ReplayNone(st: State)
    ensures Replay([], st) == st
  {
  }

  lemma {:induction false} NodesReplay(ns: seq<Node>, path: seq<Open>)
    requires path != []
    ensures Replay(Events(ns), At(path)) == Grown(path, ns)
    decreases ns, 0
  {
    hide Replay, EventsOf;
    if ns == [] {
      GrownByNone(path);
      ReplayNone(At(path));
    } else {
      var k := |ns| - 1;
      NodesReplay(ns[..k], path);
      GrowTwice(path, ns[..k], [ns[k]]);
      NodeReplays(ns[k], Grown(path, ns[..k]).path);
      ReplayParts(Events(ns[..k]), EventsOf(ns[k]), At(path));
      assert ns[..k] + [ns[k]] == ns;
    }
  }

  // The events that lead to the sections open now, when the root had n children before.
  function Trace(path: seq<Open>, n: nat): seq<Event>
    requires path != [] && n <= |path[0].children|
  {
    var k := |path| - 1;
    if k == 0 then Events(path[0].children[n..])
    else Trace(path[..k], n) + [Opening(path[k].name)] + Events(path[k].children)
  }

  // What is open stands in the tree that is loaded into, and what was read is what built it.
  ghost predicate Built(root: Open, es: seq<Event>, path: seq<Open>) {
    && path != [] && path[0].name == root.name && root.children <= path[0].children
    && Trace(path, |root.children|) == es
  }

  lemma TraceGrows(path: seq<Open>, n: nat, m: Node)
    requires path != [] && n <= |path[0].children|
    ensures var next := Grown(path, [m]).path;
      next != [] && n <= |next[0].children| && Trace(next, n) == Trace(path, n) + EventsOf(m)
  {
    hide EventsOf;
    var k := |path| - 1;
    var next := Grown(path, [m]).path;
    EventsOfOne(m);
    if k == 0 {
      assert next[0].children[n..] == path[0].children[n..] + [m];
      EventsParts(path[0].children[n..], [m]);
    } else {
      assert next[..k] == path[..k] && next[k].children == path[k].children + [m];
      EventsParts(path[k].children, [m]);
    }
  }

  lemma BuiltNext(root: Open, es: seq<Event>, path: seq<Open>, e: Event)
    requires Built(root, es, path) && !e.Nothing? && !(e.Item? && e.node.Section?)
    ensures var next := Apply(At(path), e); next.Failed? || next.path == [] || Built(root, es + [e], next.path)
  {
    hide Trace;
    var n, k := |root.children|, |path| - 1;
    var next := Apply(At(path), e);
    if !next.Failed? && next.path != [] {
      match e
      case Opening(name) => TraceOpens(path, n, name);
      case Item(m) =>
        GrowNode(path, m);
        TraceGrows(path, n, m);
        RootGrows(root, path, m);
      case Closing(name) =>
        var done := Section(name, path[k].children);
        GrowNode(path[..k], done);
        TraceCloses(path, n);
        TraceGrows(path[..k], n, done);
        RootGrows(root, path[..k], done);
        assert Trace(next.path, n) == Trace(path[..k], n) + ([Opening(name)] + Events(path[k].children) + [Closing(name)]);
    }
  }

  lemma RootGrows(root: Open, path: seq<Open>, m: Node)
    requires path != [] && path[0].name == root.name && root.children <= path[0].children
    ensures var next := Grown(path, [m]).path;
      next != [] && next[0].name == root.name && root.children <= next[0].children
  {
  }

  lemma TraceOpens(path: seq<Open>, n: nat, name: string)
    requires path != [] && n <= |path[0].children|
    ensures Trace(path + [Open(name, [])], n) == Trace(path, n) + [Opening(name)]
  {
    var next := path + [Open(name, [])];
    assert next[..|path|] == path;
    assert Events([]) == [];
  }

  lemma TraceCloses(path: seq<Open>, n: nat)
    requires |path| > 1 && n <= |path[0].children|
    ensures var k := |path| - 1;
      path[..k][0] == path[0] && Trace(path, n) == Trace(path[..k], n) + [Opening(path[k].name)] + Events(path[k].children)
  {
  }

  // Without a current node nothing more can be read.
  lemma ClosedStays(st: State, e: Event)
    requires (st.Failed? || st.path == []) && !e.Nothing?
    ensures Apply(st, e).Failed?
  {
  }

  lemma {:induction false} ReplayBuilds(root: Open, es: seq<Event>)
    requires forall i :: 0 <= i < |es| ==> !es[i].Nothing? && !(es[i].Item? && es[i].node.Section?)
    ensures var st := Replay(es, At([root])); st.Failed? || st.path == [] || Built(root, es, st.path)
  {
    hide Apply;
    if es == [] {
      assert root.children[|root.children|..] == [];
    } else {
      var front, e := es[..|es| - 1], es[|es| - 1];
      ReplayBuilds(root, front);
      var st := Replay(front, At([root]));
      assert front + [e] == es;
      if st.Failed? || st.path == [] {
        ClosedStays(st, e);
      } else {
        BuiltNext(root, front, st.path, e);
      }
    }
  }

  lemma {:induction false} RealHasItems(lines: seq<string>, es: seq<Event>)
    requires WrittenAs(lines, es)
    ensures forall i :: 0 <= i < |Real(es)| ==> !Real(es)[i].Nothing? && !(Real(es)[i].Item? && Real(es)[i].node.Section?)
  {
    if es != [] {
      var k := |es| - 1;
      RealHasItems(lines[..k], es[..k]);
      assert Writes(lines[k], es[k]);
    }
  }

  // A text of such lines loads exactly when its tags match, and then adds the trees it writes.
  lemma LoadsExactly(lines: seq<string>, es: seq<Event>, root: Open)
    requires WrittenAs(lines, es)
    ensures var st := LoadText(Joined(lines), At([root]));
      && (st.At? && |st.path| == 1 <==> Matching(Real(es)))
      && forall ns :: Events(ns) == Real(es) ==> st == At([Open(root.name, root.children + ns)])
  {
    hide LoadText, Replay, Trace, WrittenAs;
    var st := LoadText(Joined(lines), At([root]));
    LoadReplays(lines, es, At([root]));
    RealReplays(es, At([root]));
    RealHasItems(lines, es);
    ReplayBuilds(root, Real(es));
    forall ns | Events(ns) == Real(es) ensures st == At([Open(root.name, root.children + ns)]) {
      NodesReplay(ns, [root]);
      assert Grown([root], ns) == At([Open(root.name, root.children + ns)]);
    }
    if st.At? && |st.path| == 1 {
      OnlyRoot(st.path, |root.children|);
    }
  }

  lemma TextLoadsExactly(content: string, root: Open)
    ensures var st := LoadText(content, At([root]));
      && (forall lines, es :: WrittenAs(lines, es) && content == Joined(lines) ==>
           (st.At? && |st.path| == 1 <==> Matching(Real(es))))
      && forall lines, es, ns :: WrittenAs(lines, es) && content == Joined(lines) && Events(ns) == Real(es) ==>
           st == At([Open(root.name, root.children + ns)])
  {
    hide LoadText, WrittenAs, Matching;
    forall lines, es | WrittenAs(lines, es) && content == Joined(lines)
      ensures var st := LoadText(content, At([root]));
        && (st.At? && |st.path| == 1 <==> Matching(Real(es)))
        && forall ns :: Events(ns) == Real(es) ==> st == At([Open(root.name, root.children + ns)])
    {
      LoadsExactly(lines, es, root);
    }
  }

  lemma OnlyRoot(path: seq<Open>, n: nat)
    requires |path| == 1 && n <= |path[0].children|
    ensures Trace(path, n) == Events(path[0].children[n..])
  {
  }

  // Quotes around a text are dropped, but a quote that follows a quote is kept.
  lemma QuotesDropped(a: string, s: string)
    requires '"' !in a && '"' !in s && s != ""
    ensures Unquote(a + ("\"" + s + "\"")) == a + s
    ensures Unquote(a + ("\"\"" + s)) == a + ("\"" + s)
  {
    hide Unquote;
    UnquotedBefore(a, "\"" + s + "\"");
    UnquotedBefore(a, "\"\"" + s);
    FirstQuote(s[0], s[1..] + "\"");
    assert "\"" + s + "\"" == "\"" + [s[0]] + (s[1..] + "\"") && s == [s[0]] + s[1..];
    LastQuote(s[1..]);
    FirstQuote('"', s);
    assert "\"\"" + s == "\"" + ['"'] + s;
    NothingToUnquote(s);
  }

  lemma FirstQuote(c: char, t: string)
    ensures Unquote("\"" + [c] + t) == [c] + Unquote(t)
  {
    assert ("\"" + [c] + t)[2..] == t;
  }

  lemma {:induction false} UnquotedBefore(a: string, t: string)
    requires '"' !in a
    ensures Unquote(a + t) == a + Unquote(t)
  {
    hide Unquote;
    if a == "" {
      assert a + t == t && "" + Unquote(t) == Unquote(t);
    } else {
      UnquotedBefore(a[1..], t);
      UnquotedNext(a[0], a[1..] + t);
      assert a == [a[0]] + a[1..];
      assert a + t == [a[0]] + (a[1..] + t) && a + Unquote(t) == [a[0]] + (a[1..] + Unquote(t));
    }
  }

  lemma UnquotedNext(c: char, t: string)
    requires c != '"'
    ensures Unquote([c] + t) == [c] + Unquote(t)
  {
    assert ([c] + t)[1..] == t;
  }

  lemma {:induction false} LastQuote(s: string)
    requires '"' !in s
    ensures Unquote(s + "\"") == s
  {
    if s != "" {
      LastQuote(s[1..]);
      assert (s + "\"")[1..] == s[1..] + "\"";
      assert s == [s[0]] + s[1..];
    }
  }

  // Texts that fail.

  lemma {:induction false} FailureStays(content: string)
    ensures LoadText(content, Failed) == Failed
  {
    var end := IndexOf(content, '\n');
    if end < |content| {
      FailureStays(content[end + 1..]);
    }
  }

  // A line that fails, fails the text around it.
  lemma LineFails(before: string, line: string, after: string, st: State)
    requires '\n' !in line && ParseLine(line, LoadText(before, st)).Failed?
    ensures LoadText(before + "\n" + line + "\n" + after, st).Failed?
    ensures LoadText(before + "\n" + line, st).Failed?
  {
    hide LoadText, ParseLine;
    LoadJoined(before, line, st);
    LoadSingle(line, LoadText(before, st));
    LoadJoined(before + "\n" + line, after, st);
    FailureStays(after);
  }

  // A tag without an end.
  lemma UnendedTag(s: string, st: State)
    requires |s| >= 2 && ']' !in s && '>' !in s
    ensures ParseLine("[" + s, st).Failed? && ParseLine("<" + s, st).Failed?
  {
    Nowhere("[" + s, ']'); Nowhere("[" + s, '>');
    Nowhere("<" + s, ']'); Nowhere("<" + s, '>');
  }

  // A tag without a name.
  lemma UnnamedTag(s: string, st: State)
    requires s != ""
    ensures ParseLine("[]" + s, st).Failed?
    ensures ']' !in s ==> ParseLine("<>" + s, st).Failed?
  {
    FirstAt("[]" + s, ']', 1);
    if ']' !in s {
      Nowhere("<>" + s, ']');
      FirstAt("<>" + s, '>', 1);
    }
  }

  // A tag that closes another section than the innermost open one.
  lemma MismatchedTag(name: string, path: seq<Open>)
    requires TagName(name) && path != [] && name != path[|path| - 1].name
    ensures ParseLine("[!" + name + "]", At(path)).Failed? && ParseLine("[/" + name + "]", At(path)).Failed?
  {
    hide ParseLine;
    ClosingTag('!', name, path);
    ClosingTag('/', name, path);
    assert ['!'] + name == "!" + name && ['/'] + name == "/" + name;
    assert "[" + ("!" + name) + "]" == "[!" + name + "]" && "[" + ("/" + name) + "]" == "[/" + name + "]";
  }

  lemma ClosingTag(mark: char, name: string, path: seq<Open>)
    requires TagName(name) && (mark == '!' || mark == '/') && path != []
    ensures ParseLine("[" + ([mark] + name) + "]", At(path)) == Leave(At(path), name)
  {
    hide ParseRest, Leave, Enter;
    var s := "[" + ([mark] + name) + "]";
    assert "" + s == s && ([mark] + name)[1..] == name;
    TagLine(s, [mark] + name, At(path));
    StartsWith("", s, At(path));
  }

  // What is printed, in so many characters.

  lemma PrintedLeaf()
    ensures SerializeAll([Leaf("x", "1")], 3) == "\t\t\tx = 1\n"
  {
    PrintedTabs();
    assert Serialize(Leaf("x", "1"), 3) == "\t\t\tx = 1\n";
  }

  lemma PrintedComment()
    ensures SerializeAll([Comment("c")], 2) == "\t\t# c\n"
  {
    PrintedTabs();
    assert Serialize(Comment("c"), 2) == "\t\t# c\n";
  }

  lemma PrintedTabs()
    ensures Tabs(1) == "\t" && Tabs(2) == "\t\t" && Tabs(3) == "\t\t\t"
  {
    assert Tabs(1) == "\t" + Tabs(0);
    assert Tabs(2) == "\t" + Tabs(1);
  }

  lemma PrintedSection(name: string, children: seq<Node>, depth: nat)
    ensures Serialize(Section(name, children), depth) ==
      Tabs(depth) + "[" + name + "]\n" + SerializeAll(children, depth + 1) + Tabs(depth) + "[!" + name + "]\n"
  {
  }

  lemma PrintedExample()
    ensures Serialize(Section("a", [Leaf("x", "1")]), 2) == "\t\t[a]\n\t\t\tx = 1\n\t\t[!a]\n"
    ensures SerializeAll([Section("a", [Leaf("x", "1")]), Comment("c")], 2) == "\t\t[a]\n\t\t\tx = 1\n\t\t[!a]\n\t\t# c\n"
  {
    hide Serialize, SerializeAll, Tabs;
    PrintedTabs();
    PrintedLeaf();
    PrintedComment();
    PrintedSection("a", [Leaf("x", "1")], 2);
    var n := Section("a", [Leaf("x", "1")]);
    PrintedTwo(n, Comment("c"));
  }

  lemma PrintedTwo(a: Node, b: Node)
    ensures SerializeAll([a, b], 2) == Serialize(a, 2) + SerializeAll([b], 2)
  {
    hide Serialize;
    assert [a, b][1..] == [b];
  }
}
