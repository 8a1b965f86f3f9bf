// Loading what was printed gives the tree back.
module ConfigRoundTrip {

  import opened ConfigTree

  // Strings.

  lemma {:induction false} FirstAt(s: string, c: char, i: nat)
    requires i < |s| && s[i] == c && c !in s[..i]
    ensures IndexOf(s, c) == i
  {
    if i > 0 {
      assert s[..i][0] == s[0];
      assert s[1..][..i - 1] == s[..i][1..];
      FirstAt(s[1..], c, i - 1);
    }
  }

  lemma {:induction false} Nowhere(s: string, c: char)
    requires c !in s
    ensures IndexOf(s, c) == |s|
  {
    if s != "" {
      Nowhere(s[1..], c);
    }
  }

  lemma TabsAreBlank(depth: nat)
    ensures forall i :: 0 <= i < |Tabs(depth)| ==> Tabs(depth)[i] == '\t'
  {
  }

  lemma {:induction false} TrimTabs(depth: nat, s: string)
    requires s != "" && !IsBlank(s[0])
    ensures TrimLeft(Tabs(depth) + s) == s
  {
    if depth == 0 {
      assert Tabs(depth) + s == s;
    } else {
      assert (Tabs(depth) + s)[1..] == Tabs(depth - 1) + s;
      TrimTabs(depth - 1, s);
    }
  }

  lemma {:induction false} NotLonger(s: string)
    ensures |TrimLeft(s)| <= |s| && |TrimRight(s)| <= |s|
  {
    if s != "" {
      NotLonger(s[1..]);
      NotLonger(s[..|s| - 1]);
    }
  }

  // A trimmed string has no blank at either end.
  lemma TrimmedEnds(s: string)
    requires Trim(s) == s && s != ""
    ensures !IsBlank(s[0]) && !IsBlank(s[|s| - 1])
  {
    NotLonger(TrimLeft(s));
    NotLonger(s[1..]);
    NotLonger(s[..|s| - 1]);
  }

  lemma TrimBefore(s: string)
    requires Trim(s) == s
    ensures Trim(" " + s) == s
  {
    assert (" " + s)[1..] == s;
    if s != "" { TrimmedEnds(s); }
  }

  lemma TrimAfter(s: string)
    requires Trim(s) == s && s != ""
    ensures Trim(s + " ") == s
  {
    TrimmedEnds(s);
    assert (s + " ")[..|s|] == s;
  }

  lemma {:induction false} NothingToUnquote(s: string)
    requires '"' !in s
    ensures Unquote(s) == s
  {
    if s != "" {
      NothingToUnquote(s[1..]);
      assert s == [s[0]] + s[1..];
    }
  }

  // Loading, line by line.

  lemma LoadLine(line: string, rest: string, st: State)
    requires '\n' !in line
    ensures LoadText(line + "\n" + rest, st) == LoadText(rest, ParseLine(line, st))
  {
    var all := line + "\n" + rest;
    assert all[..|line|] == line;
    FirstAt(all, '\n', |line|);
    assert all[|line| + 1..] == rest;
  }

  lemma OpeningLine(depth: nat, name: string, st: State)
    requires name != "" && ']' !in name && name[0] != '/' && name[0] != '!'
    ensures ParseLine(Tabs(depth) + "[" + name + "]", st) == Enter(st, name)
  {
    var line := "[" + name + "]";
    assert Tabs(depth) + "[" + name + "]" == Tabs(depth) + line;
    TrimTabs(depth, line);
    assert line[..|name| + 1] == "[" + name;
    FirstAt(line, ']', |name| + 1);
    assert line[1..|name| + 1] == name;
  }

  lemma ClosingLine(depth: nat, name: string, st: State)
    requires name != "" && ']' !in name
    ensures ParseLine(Tabs(depth) + "[!" + name + "]", st) == Leave(st, name)
  {
    var line := "[!" + name + "]";
    assert Tabs(depth) + "[!" + name + "]" == Tabs(depth) + line;
    TrimTabs(depth, line);
    assert line[..|name| + 2] == "[!" + name;
    FirstAt(line, ']', |name| + 2);
    assert line[2..|name| + 2] == name;
  }

  lemma LeafText(name: string, value: string)
    requires WellFormed(Leaf(name, value))
    ensures LeafOf(name + " = " + value) == Leaf(name, value)
  {
    hide Unquote, IndexOf, TrimLeft, TrimRight;
    var line := name + " = " + value;
    NothingToUnquote(line);
    assert line[..|name| + 1] == name + " ";
    FirstAt(line, '=', |name| + 1);
    assert line[|name| + 2..] == " " + value;
    TrimAfter(name);
    TrimBefore(value);
  }

  lemma LeafLine(depth: nat, name: string, value: string, st: State)
    requires WellFormed(Leaf(name, value))
    ensures ParseLine(Tabs(depth) + name + " = " + value, st) == Create(st, Leaf(name, value))
  {
    hide LeafOf, Unquote, IndexOf, TrimLeft, TrimRight, Tag;
    var line := name + " = " + value;
    assert Tabs(depth) + name + " = " + value == Tabs(depth) + line;
    TrimmedEnds(name);
    assert line[0] == name[0];
    TrimTabs(depth, line);
    LeafText(name, value);
  }

  lemma CommentLine(depth: nat, name: string, st: State)
    requires WellFormed(Comment(name))
    ensures ParseLine(Tabs(depth) + "# " + name, st) == Create(st, Comment(name))
  {
    var line := "# " + name;
    assert Tabs(depth) + "# " + name == Tabs(depth) + line;
    TrimTabs(depth, line);
    assert line[1..] == " " + name;
    TrimBefore(name);
  }

  // Loading trees: printed inside an open section, they end up as its next children.

  function Grown(path: seq<Open>, ns: seq<Node>): State
    requires path != []
  {
    var k := |path| - 1;
    At(path[..k] + [Open(path[k].name, path[k].children + ns)])
  }

  lemma GrowNode(path: seq<Open>, n: Node)
    requires path != []
    ensures Create(At(path), n) == Grown(path, [n])
  {
  }

  lemma GrowTwice(path: seq<Open>, a: seq<Node>, b: seq<Node>)
    requires path != []
    ensures Grown(path, a).path != [] && Grown(Grown(path, a).path, b) == Grown(path, a + b)
  {
    var k := |path| - 1;
    assert Grown(path, a).path[..k] == path[..k];
    assert path[k].children + a + b == path[k].children + (a + b);
  }

  // Entering a section, growing it and leaving it adds it to its parent.
  lemma SectionGrows(path: seq<Open>, name: string, ns: seq<Node>)
    requires path != []
    ensures Enter(At(path), name).path != []
    ensures Leave(Grown(Enter(At(path), name).path, ns), name) == Grown(path, [Section(name, ns)])
  {
    var inner := Grown(Enter(At(path), name).path, ns).path;
    assert inner == path + [Open(name, [] + ns)];
    assert inner[..|path|] == path;
    assert [] + ns == ns;
    GrowNode(path, Section(name, ns));
  }

  lemma {:induction false} LoadNode(n: Node, depth: nat, rest: string, path: seq<Open>)
    requires WellFormed(n) && path != []
    ensures LoadText(Serialize(n, depth) + rest, At(path)) == LoadText(rest, Grown(path, [n]))
    decreases n, 1
  {
    hide ParseLine, LoadText;
    TabsAreBlank(depth);
    match n
    case Section(name, children) =>
      var open, close := Tabs(depth) + "[" + name + "]", Tabs(depth) + "[!" + name + "]";
      var inside := SerializeAll(children, depth + 1);
      var inner := Enter(At(path), name).path;
      assert Serialize(n, depth) + rest == open + "\n" + (inside + (close + "\n" + rest));
      LoadLine(open, inside + (close + "\n" + rest), At(path));
      OpeningLine(depth, name, At(path));
      LoadNodes(children, depth + 1, close + "\n" + rest, inner);
      LoadLine(close, rest, Grown(inner, children));
      ClosingLine(depth, name, Grown(inner, children));
      SectionGrows(path, name, children);
    case Leaf(name, value) =>
      var line := Tabs(depth) + name + " = " + value;
      assert Serialize(n, depth) + rest == line + "\n" + rest;
      LoadLine(line, rest, At(path));
      LeafLine(depth, name, value, At(path));
      GrowNode(path, n);
    case Comment(name) =>
      var line := Tabs(depth) + "# " + name;
      assert Serialize(n, depth) + rest == line + "\n" + rest;
      LoadLine(line, rest, At(path));
      CommentLine(depth, name, At(path));
      GrowNode(path, n);
  }

  lemma {:induction false} LoadNodes(ns: seq<Node>, depth: nat, rest: string, path: seq<Open>)
    requires (forall i :: 0 <= i < |ns| ==> WellFormed(ns[i])) && path != []
    ensures LoadText(SerializeAll(ns, depth) + rest, At(path)) == LoadText(rest, Grown(path, ns))
    decreases ns, 0
  {
    hide LoadText;
    if ns == [] {
      assert SerializeAll(ns, depth) + rest == rest;
      assert path[|path| - 1].children + ns == path[|path| - 1].children;
      assert Grown(path, ns).path == path;
    } else {
      var first, others := Serialize(ns[0], depth), SerializeAll(ns[1..], depth);
      assert SerializeAll(ns, depth) + rest == first + (others + rest);
      LoadNode(ns[0], depth, others + rest, path);
      LoadNodes(ns[1..], depth, rest, Grown(path, [ns[0]]).path);
      GrowTwice(path, [ns[0]], ns[1..]);
      assert [ns[0]] + ns[1..] == ns;
    }
  }

  // Printing the children of the root and loading the text adds the same children to the root
  // of the tree that is loaded into.
  lemma RoundTrip(children: seq<Node>, root: Open)
    requires forall i :: 0 <= i < |children| ==> WellFormed(children[i])
    ensures LoadText(SerializeAll(children, 1), At([root])) == At([Open(root.name, root.children + children)])
  {
    var text := SerializeAll(children, 1);
    assert text + "" == text;
    LoadNodes(children, 1, "", [root]);
  }
}
