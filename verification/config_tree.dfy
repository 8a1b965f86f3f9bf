// Configuration trees, how they are printed, and what loading a text does to a tree under
// construction.
module ConfigTree {

  datatype Node =
    | Section(name: string, children: seq<Node>)
    | Leaf(name: string, value: string)
    | Comment(name: string)

  // The sections that are open, outermost first: the current node is the last one, and its
  // parent the one before it. Failed is an exception; a path without sections a null node.
  datatype Open = Open(name: string, children: seq<Node>)
  datatype State = Failed | At(path: seq<Open>)

  // Strings.

  predicate IsBlank(c: char) {
    c == ' ' || c == '\t'
  }

  function TrimLeft(s: string): string {
    if s != "" && IsBlank(s[0]) then TrimLeft(s[1..]) else s
  }

  function TrimRight(s: string): string {
    if s != "" && IsBlank(s[|s| - 1]) then TrimRight(s[..|s| - 1]) else s
  }

  function Trim(s: string): string {
    TrimRight(TrimLeft(s))
  }

  // The first position of c in s, or the length.
  function IndexOf(s: string, c: char): (i: nat)
    ensures i <= |s| && (i < |s| ==> s[i] == c) && c !in s[..i]
  {
    if s == "" || s[0] == c then 0
    else
      var i := 1 + IndexOf(s[1..], c);
      assert s[..i] == [s[0]] + s[1..][..i - 1];
      i
  }

  // Drops a quote and keeps whatever follows it.
  function Unquote(s: string): string {
    if s == "" then ""
    else if s[0] != '"' then [s[0]] + Unquote(s[1..])
    else if |s| == 1 then ""
    else [s[1]] + Unquote(s[2..])
  }

  // Printing.

  function Tabs(depth: nat): string {
    if depth == 0 then "" else "\t" + Tabs(depth - 1)
  }

  function Serialize(n: Node, depth: nat): string
    decreases n, 1
  {
    match n
    case Section(name, children) =>
      Tabs(depth) + "[" + name + "]\n" + SerializeAll(children, depth + 1) + Tabs(depth) + "[!" + name + "]\n"
    case Leaf(name, value) => Tabs(depth) + name + " = " + value + "\n"
    case Comment(name) => Tabs(depth) + "# " + name + "\n"
  }

  function SerializeAll(ns: seq<Node>, depth: nat): string
    decreases ns, 0
  {
    if ns == [] then "" else Serialize(ns[0], depth) + SerializeAll(ns[1..], depth)
  }

  // Loading: the effect of a line, piece by piece.

  function Create(st: State, n: Node): State {
    if st.Failed? || st.path == [] then Failed
    else
      var k := |st.path| - 1;
      At(st.path[..k] + [Open(st.path[k].name, st.path[k].children + [n])])
  }

  function Enter(st: State, name: string): State {
    if st.Failed? || st.path == [] then Failed else At(st.path + [Open(name, [])])
  }

  // Closing the root leaves no current node.
  function Leave(st: State, name: string): State {
    if st.Failed? || st.path == [] || st.path[|st.path| - 1].name != name then Failed
    else
      var k := |st.path| - 1;
      var done := Section(name, st.path[k].children);
      if k == 0 then At([]) else Create(At(st.path[..k]), done)
  }

  function LeafOf(line: string): Node {
    var element := Unquote(line);
    var eq := IndexOf(element, '=');
    if eq < |element| then Leaf(Trim(element[..eq]), Trim(element[eq + 1..])) else Leaf("", "")
  }

  // The end of a tag: the first ], or without any the first >.
  function TagEnd(line: string): (end: nat)
    ensures end <= |line|
  {
    if IndexOf(line, ']') < |line| then IndexOf(line, ']') else IndexOf(line, '>')
  }

  function Tag(line: string, st: State): State {
    var end := TagEnd(line);
    if end == |line| || end <= 1 then Failed
    else if line[1] == '/' || line[1] == '!' then Leave(st, line[2..end])
    else Enter(st, line[1..end])
  }

  // Pieces of two or fewer characters are ignored.
  function ParseRest(line: string, st: State): State {
    if |line| <= 2 || st.Failed? then st
    else if line[0] == '#' then Create(st, Comment(Trim(line[1..])))
    else if line[0] == '<' || line[0] == '[' then
      var next := Tag(line, st);
      if next.Failed? || TagEnd(line) >= |line| - 1 then next else ParseRest(line[TagEnd(line) + 1..], next)
    else if IsBlank(line[0]) then ParseRest(line[1..], st)
    else Create(st, LeafOf(line))
  }

  function ParseLine(line: string, st: State): State {
    ParseRest(TrimLeft(line), st)
  }

  function LoadText(content: string, st: State): State {
    var end := IndexOf(content, '\n');
    if end == |content| then ParseLine(content, st)
    else LoadText(content[end + 1..], ParseLine(content[..end], st))
  }

  // Trees that can be printed and read back.

  predicate Plain(s: string) {
    '\n' !in s && Trim(s) == s
  }

  predicate WellFormed(n: Node)
    decreases n
  {
    match n
    case Section(name, children) =>
      && name != "" && '\n' !in name && ']' !in name && name[0] != '/' && name[0] != '!'
      && forall i :: 0 <= i < |children| ==> WellFormed(children[i])
    case Leaf(name, value) =>
      && Plain(name) && name != "" && '=' !in name && '"' !in name
      && name[0] != '#' && name[0] != '[' && name[0] != '<'
      && Plain(value) && '"' !in value
    case Comment(name) => Plain(name) && name != ""
  }
}
