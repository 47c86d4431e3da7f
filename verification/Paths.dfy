/**
The path splitters of the native helpers: open_path of
native/claude-code-process-v1.c and the two open_chain functions of
native/installation-journal-session-v1.c and native/installed-configuration-v1.c,
without the opening of each component.
*/
module Paths {
  import opened Bytes
  import opened Wrappers
  import JournalNames

  type Name = JournalNames.Name

  const SLASH: byte := '/' as int

  /** Every component preceded by one slash. */
  function Join(components: seq<Name>): Name {
    if components == [] then [] else [SLASH] + components[0] + Join(components[1..])
  }

  predicate Good(components: seq<Name>) {
    forall c | c in components :: JournalNames.BasenameValid(c)
  }

  /** The limits of one program; the root counts as a component of its own. */
  datatype Limits = Limits(pathBytes: nat, components: nat, bareRoot: bool)

  const CUSTODY := Limits(4095, 64, false)
  const JOURNAL := Limits(4096, 256, false)
  const CONFIGURATION := Limits(4096, 64, true)

  /** `components` is how `path` reads within the limits: the bare root has none. */
  predicate Reads(path: Name, components: seq<Name>, limits: Limits) {
    && |path| <= limits.pathBytes
    && |components| + 1 <= limits.components
    && Good(components)
    && path == (if components == [] then [SLASH] else Join(components))
    && (components == [] ==> limits.bareRoot)
  }

  // ---------- joining ----------

  lemma Associative(a: Name, b: Name, c: Name)
    ensures a + (b + c) == (a + b) + c
  {
  }

  lemma {:induction false} JoinAppend(a: seq<Name>, b: seq<Name>)
    ensures Join(a + b) == Join(a) + Join(b)
  {
    if a == [] {
      assert a + b == b;
    } else {
      JoinAppend(a[1..], b);
      assert (a + b)[1..] == a[1..] + b;
      Associative([SLASH] + a[0], Join(a[1..]), Join(b));
    }
  }

  lemma JoinExtend(a: seq<Name>, c: Name)
    ensures Join(a + [c]) == Join(a) + [SLASH] + c
  {
    JoinAppend(a, [c]);
    assert Join([c]) == [SLASH] + c + Join([]);
  }

  /** A slash-free head followed by nothing or by a slash ends where a scan for
      the next slash stops. */
  lemma HeadEnds(text: Name, c: Name, tail: Name, size: nat)
    requires text == [SLASH] + c + tail
    requires SLASH !in c && (tail == [] || tail[0] == SLASH)
    requires 1 + size <= |text|
    requires forall i | 1 <= i < 1 + size :: text[i] != SLASH
    requires 1 + size == |text| || text[1 + size] == SLASH
    ensures size == |c| && text[1..1 + size] == c
  {
    assert forall i | 0 <= i < |c| :: text[1 + i] == c[i] && c[i] in c;
    assert 1 + |c| < |text| ==> text[1 + |c|] == tail[0];
  }

  lemma JoinRest(path: Name, done: seq<Name>, all: seq<Name>, at: nat)
    requires Join(all) == path && done <= all
    requires at <= |path| && Join(done) == path[..at]
    ensures Join(all[|done|..]) == path[at..]
  {
    JoinAppend(done, all[|done|..]);
    assert all == done + all[|done|..];
  }

  lemma NextComponent(path: Name, done: seq<Name>, all: seq<Name>, start: nat, end: nat)
    requires Good(all) && Join(all) == path
    requires done <= all
    requires 1 <= start <= end <= |path|
    requires Join(done) == path[..start - 1]
    requires forall i | start <= i < end :: path[i] != SLASH
    requires end == |path| || path[end] == SLASH
    ensures done + [path[start..end]] <= all
  {
    var rest, text := all[|done|..], path[start - 1..];
    JoinRest(path, done, all, start - 1);
    assert rest[0] in all;
    HeadEnds(text, rest[0], Join(rest[1..]), end - start);
    assert text[1..1 + (end - start)] == path[start..end];
  }

  /** One path reads in at most one way. */
  lemma {:induction false} JoinInjective(a: seq<Name>, b: seq<Name>)
    requires Good(a) && Good(b)
    requires Join(a) == Join(b)
    ensures a == b
  {
    if a != [] && b != [] {
      var path, end := Join(a), 1 + |a[0]|;
      assert Join(a[1..]) == path[end..];
      forall i | 1 <= i < end
        ensures path[i] != SLASH
      {
        assert path[i] == a[0][i - 1] && a[0][i - 1] in a[0] && a[0] in a;
      }
      assert end < |path| ==> path[end] == path[end..][0] == SLASH;
      assert path[1..end] == a[0];
      NextComponent(path, [], b, 1, end);
      assert ([] + [path[1..end]])[0] == b[0];
      assert Join(b[1..]) == path[end..];
      JoinInjective(a[1..], b[1..]);
    }
  }

  lemma PrefixGrows(path: Name, start: nat, end: nat)
    requires 1 <= start <= end <= |path| && path[start - 1] == SLASH
    ensures path[..end] == path[..start - 1] + [SLASH] + path[start..end]
  {
  }

  // ---------- the splitters ----------

  /** The scan the journal and the configuration helper use: find the end of a
      component, then judge it. */
  method EndOfComponent(path: Name, start: nat) returns (end: nat)
    requires start <= |path|
    ensures start <= end <= |path|
    ensures forall i | start <= i < end :: path[i] != SLASH
    ensures end == |path| || path[end] == SLASH
  {
    end := start;
    while end < |path| && path[end] != SLASH
      invariant start <= end <= |path|
      invariant forall i | start <= i < end :: path[i] != SLASH
    {
      end := end + 1;
    }
  }

  /** open_chain: the components a path reads as, and a refusal exactly when it
      reads as none. */
  method Split(path: Name, limits: Limits) returns (r: Option<seq<Name>>)
    requires limits.components > 0
    ensures r.Some? ==> Reads(path, r.value, limits)
    ensures forall cs | Reads(path, cs, limits) :: r == Some(cs)
  {
    forall cs | Reads(path, cs, limits)
      ensures Edges(path, cs, limits)
    {
      ReadsEdges(path, cs, limits);
    }
    if |path| == 0 || |path| > limits.pathBytes || path[0] != SLASH || (|path| > 1 && path[|path| - 1] == SLASH) {
      return None;
    }
    if |path| == 1 {
      return if limits.bareRoot then Some([]) else None;
    }
    var components: seq<Name>, start := [], 1;
    while start < |path|
      invariant 1 <= start <= |path| + 1
      invariant start <= |path| ==> path[start - 1] == SLASH
      invariant Join(components) == path[..start - 1]
      invariant Good(components) && |components| + 1 <= limits.components
      invariant forall cs | Reads(path, cs, limits) :: components <= cs
    {
      var end := EndOfComponent(path, start);
      var name := path[start..end];
      forall cs | Reads(path, cs, limits)
        ensures components + [name] <= cs && JournalNames.BasenameValid(name)
      {
        NextComponent(path, components, cs, start, end);
        assert name == (components + [name])[|components|] == cs[|components|];
        assert name in cs;
      }
      var valid := JournalNames.CheckBasename(name);
      if |components| + 1 >= limits.components || !valid {
        return None;
      }
      JoinExtend(components, name);
      PrefixGrows(path, start, end);
      components := components + [name];
      start := end + 1;
    }
    assert path[..|path|] == path;
    assert components != [];
    forall cs | Reads(path, cs, limits)
      ensures cs == components
    {
      JoinInjective(components, cs);
    }
    return Some(components);
  }

  predicate Edges(path: Name, cs: seq<Name>, limits: Limits) {
    && |path| >= 1 && path[0] == SLASH
    && (|path| > 1 ==> cs != [] && path[|path| - 1] != SLASH)
    && (|path| == 1 ==> cs == [] && limits.bareRoot)
  }

  lemma ReadsEdges(path: Name, cs: seq<Name>, limits: Limits)
    requires Reads(path, cs, limits)
    ensures Edges(path, cs, limits)
  {
    if cs != [] {
      var c := cs[|cs| - 1];
      assert c in cs && c[|c| - 1] in c;
      assert cs == cs[..|cs| - 1] + [c];
      JoinExtend(cs[..|cs| - 1], c);
    }
  }

  /** open_path judges the bytes while it looks for the slash; it accepts the
      same paths, read the same way. */
  method SplitScanning(path: Name, limits: Limits) returns (r: Option<seq<Name>>)
    requires limits.components > 0 && !limits.bareRoot
    ensures r.Some? ==> Reads(path, r.value, limits)
    ensures forall cs | Reads(path, cs, limits) :: r == Some(cs)
  {
    forall cs | Reads(path, cs, limits)
      ensures Edges(path, cs, limits)
    {
      ReadsEdges(path, cs, limits);
    }
    if |path| < 2 || |path| > limits.pathBytes || path[0] != SLASH || path[|path| - 1] == SLASH {
      return None;
    }
    var components: seq<Name>, start := [], 1;
    while start < |path|
      invariant 1 <= start <= |path| + 1
      invariant start <= |path| ==> path[start - 1] == SLASH
      invariant Join(components) == path[..start - 1]
      invariant Good(components) && |components| + 1 <= limits.components
      invariant forall cs | Reads(path, cs, limits) :: components <= cs
    {
      var end := start;
      while end < |path| && path[end] != SLASH
        invariant start <= end <= |path|
        invariant forall i | start <= i < end :: path[i] != SLASH && path[i] >= 32 && path[i] != 127
      {
        if path[end] < 32 || path[end] == 127 {
          forall cs | Reads(path, cs, limits)
            ensures false
          {
            ControlByte(path, cs, end);
          }
          return None;
        }
        end := end + 1;
      }
      var name := path[start..end];
      forall cs | Reads(path, cs, limits)
        ensures components + [name] <= cs && JournalNames.BasenameValid(name)
      {
        NextComponent(path, components, cs, start, end);
        assert name == (components + [name])[|components|] == cs[|components|];
        assert name in cs;
      }
      if |components| + 1 >= limits.components || |name| == 0 || |name| > 255
         || name == Ascii(".") || name == Ascii("..") {
        return None;
      }
      JoinExtend(components, name);
      PrefixGrows(path, start, end);
      components := components + [name];
      start := end + 1;
    }
    assert path[..|path|] == path;
    forall cs | Reads(path, cs, limits)
      ensures cs == components
    {
      JoinInjective(components, cs);
    }
    return Some(components);
  }

  lemma {:induction false} JoinedBytes(cs: seq<Name>)
    requires Good(cs)
    ensures forall b | b in Join(cs) :: b >= 32 && b != 127
  {
    if cs != [] {
      assert cs[0] in cs;
      JoinedBytes(cs[1..]);
    }
  }

  lemma ControlByte(path: Name, cs: seq<Name>, at: nat)
    requires at < |path| && (path[at] < 32 || path[at] == 127)
    requires Good(cs)
    ensures Join(cs) != path
  {
    JoinedBytes(cs);
    assert path[at] in path;
  }
}
