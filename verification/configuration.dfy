// Loading a configuration: the line parser with its moving current node.
module Configurations {

  import opened ConfigTree
  import opened ConfigRoundTrip
  import opened ConfigEvents

  // Splits off the first line; more tells whether a newline ended it.
  method GetLine(content: string) returns (line: string, rest: string, more: bool)
    ensures var end := IndexOf(content, '\n');
      && line == content[..end] && (more <==> end < |content|)
      && rest == if more then content[end + 1..] else ""
    ensures !more ==> line == content
  {
    var i := 0;
    while i < |content| && content[i] != '\n'
      invariant 0 <= i <= |content| && '\n' !in content[..i]
    {
      i := i + 1;
    }
    line := content[..i];
    more := i < |content|;
    if more {
      FirstAt(content, '\n', i);
      rest := content[i + 1..];
    } else {
      assert content[..i] == content;
      Nowhere(content, '\n');
      rest := "";
    }
  }

  // Copies a line without its quotes.
  method ReadElement(line: string) returns (element: string)
    ensures element == Unquote(line)
  {
    hide Unquote;
    element := "";
    var curPos := 0;
    assert line[0..] == line;
    UnquoteEnd(line);
    while curPos < |line|
      invariant 0 <= curPos <= |line| && element + Unquote(line[curPos..]) == Unquote(line)
    {
      UnquoteStep(line, curPos);
      if line[curPos] == '"' {
        curPos := curPos + 1;
      }
      if curPos < |line| {
        element := element + [line[curPos]];
        curPos := curPos + 1;
      }
    }
  }

  lemma UnquoteEnd(s: string)
    ensures Unquote(s[|s|..]) == ""
  {
  }

  lemma UnquoteStep(s: string, i: nat)
    requires i < |s|
    ensures var j := if s[i] == '"' then i + 1 else i;
      Unquote(s[i..]) == if j < |s| then [s[j]] + Unquote(s[j + 1..]) else ""
  {
    var tail := s[i..];
    assert tail[1..] == s[i + 1..];
    assert |tail| > 1 ==> tail[2..] == s[i + 2..];
  }

  class Configuration {
    // From the root to the current node.
    var path: seq<Open>

    constructor ()
      ensures path == [Open("root", [])]
    {
      path := [Open("root", [])];
    }

    // Creates a child of the current node; without a current node that is a failure.
    method CreateNode(n: Node) returns (thrown: bool)
      modifies this
      ensures thrown <==> Create(At(old(path)), n).Failed?
      ensures !thrown ==> At(path) == Create(At(old(path)), n)
    {
      thrown := path == [];
      if !thrown {
        var k := |path| - 1;
        path := path[..k] + [Open(path[k].name, path[k].children + [n])];
      }
    }

    method ParseTag(line: string) returns (end: nat, thrown: bool)
      requires |line| > 2
      modifies this
      ensures end == TagEnd(line)
      ensures thrown <==> Tag(line, At(old(path))).Failed?
      ensures !thrown ==> At(path) == Tag(line, At(old(path))) && 1 < end < |line|
    {
      thrown := false;
      end := IndexOf(line, ']');
      if end == |line| {
        end := IndexOf(line, '>');
      }
      if end == |line| || end <= 1 {
        return end, true;
      }
      var name := line[1..end];
      if name[0] == '/' || name[0] == '!' {
        if path == [] || name[1..] != path[|path| - 1].name {
          return end, true;
        }
        assert name[1..] == line[2..end];
        var k := |path| - 1;
        var done := Section(path[k].name, path[k].children);
        path := path[..k];
        if k > 0 {
          thrown := CreateNode(done);
        }
      } else if path == [] {
        return end, true;
      } else {
        path := path + [Open(name, [])];
      }
    }

    // Parses a line without leading blanks.
    method ParseTrimmed(trimmed: string) returns (thrown: bool)
      modifies this
      ensures thrown <==> ParseRest(trimmed, At(old(path))).Failed?
      ensures !thrown ==> At(path) == ParseRest(trimmed, At(old(path)))
    {
      thrown := false;
      var line, lineLen := trimmed, |trimmed|;
      if lineLen == 0 {
        return;
      }
      var chrPos: int := 1;
      while chrPos < lineLen - 1
        invariant if chrPos < lineLen - 1 then
            chrPos + |line| == lineLen + 1 && ParseRest(line, At(path)) == ParseRest(trimmed, At(old(path)))
          else At(path) == ParseRest(trimmed, At(old(path)))
        decreases lineLen - chrPos
      {
        if line[0] == '#' {
          thrown := CreateNode(Comment(Trim(line[1..])));
          if thrown {
            return;
          }
          chrPos := chrPos + |line| - 1;
        } else if line[0] == '<' || line[0] == '[' {
          var end;
          end, thrown := ParseTag(line);
          if thrown {
            return;
          }
          if end < |line| - 1 {
            line := line[end + 1..];
          }
          chrPos := chrPos + (end + 1);
        } else {
          chrPos := chrPos + 1;
          if line[0] != ' ' && line[0] != '\t' {
            var element := ReadElement(line);
            var key, value := "", "";
            var eq := IndexOf(element, '=');
            if eq < |element| {
              key := Trim(element[..eq]);
              value := Trim(element[eq + 1..]);
            }
            thrown := CreateNode(Leaf(key, value));
            if thrown {
              return;
            }
            chrPos := chrPos + (|line| - 1);
            line := "";
          } else {
            line := line[1..];
          }
        }
      }
    }

    // Loads a text into the root. Fails on a malformed or unmatched tag, and when a section is
    // still open at the end.
    method Load(content: string) returns (thrown: bool)
      requires |path| == 1
      modifies this
      ensures !thrown ==> At(path) == LoadText(content, At(old(path))) && |path| == 1
      ensures thrown <==> var st := LoadText(content, At(old(path))); st.Failed? || |st.path| != 1
      ensures forall lines, es :: WrittenAs(lines, es) && content == Joined(lines) ==> (thrown <==> !Matching(Real(es)))
      ensures forall lines, es, ns :: WrittenAs(lines, es) && content == Joined(lines) && Events(ns) == Real(es) ==>
        path == [Open(old(path)[0].name, old(path)[0].children + ns)]
    {
      hide WrittenAs, Matching, Joined, Events, Real, ParseRest;
      assert path == [path[0]];
      TextLoadsExactly(content, path[0]);
      thrown := false;
      var rest, good := content, true;
      while good
        invariant good ==> LoadText(rest, At(path)) == LoadText(content, At(old(path)))
        invariant !good ==> At(path) == LoadText(content, At(old(path)))
        decreases good, |rest|
      {
        var line;
        line, rest, good := GetLine(rest);
        line := TrimLeft(line);
        thrown := ParseTrimmed(line);
        if thrown {
          FailureStays(rest);
          return;
        }
      }
      if |path| != 1 {
        thrown := true;
      }
    }
  }

  // Printing trees below the root and loading the text gives the same trees.
  method PrintAndLoad(children: seq<Node>) returns (loaded: seq<Node>)
    requires forall i :: 0 <= i < |children| ==> WellFormed(children[i])
    ensures loaded == children
  {
    RoundTrip(children, Open("root", []));
    var configuration := new Configuration();
    var thrown := configuration.Load(SerializeAll(children, 1));
    assert !thrown && configuration.path == [Open("root", [] + children)];
    loaded := configuration.path[0].children;
  }
}
