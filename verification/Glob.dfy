/** Resource scope patterns: `*` and `?` never cross a path segment. */
module Glob {
  import opened Text
  import opened Sorting

  /** What the translated regular expression accepts: `*` is any run of characters other than
      `/`, `?` is one such character, everything else is itself. */
  predicate Matches(scope: string, pattern: string)
    decreases |pattern|, |scope|
  {
    if pattern == [] then scope == []
    else if pattern[0] == '*' then
      Matches(scope, pattern[1..]) || (scope != [] && scope[0] != '/' && Matches(scope[1..], pattern))
    else if pattern[0] == '?' then
      scope != [] && scope[0] != '/' && Matches(scope[1..], pattern[1..])
    else
      scope != [] && scope[0] == pattern[0] && Matches(scope[1..], pattern[1..])
  }

  // ------------------------------------------------------------------- what matching means

  predicate Fits(piece: string, c: char) {
    if c == '*' then '/' !in piece
    else if c == '?' then |piece| == 1 && piece[0] != '/'
    else piece == [c]
  }

  function Flatten(pieces: seq<string>): string {
    if pieces == [] then [] else pieces[0] + Flatten(pieces[1..])
  }

  /** The pieces of a scope that the characters of a pattern stand for. */
  ghost predicate Spells(pieces: seq<string>, pattern: string) {
    |pieces| == |pattern| && forall i | 0 <= i < |pattern| :: Fits(pieces[i], pattern[i])
  }

  lemma {:induction false} MatchSpells(scope: string, pattern: string) returns (pieces: seq<string>)
    requires Matches(scope, pattern)
    ensures Spells(pieces, pattern) && Flatten(pieces) == scope
    decreases |pattern|, |scope|
  {
    if pattern == [] {
      pieces := [];
    } else if pattern[0] == '*' && Matches(scope, pattern[1..]) {
      var rest := MatchSpells(scope, pattern[1..]);
      pieces := [""] + rest;
      assert pieces[1..] == rest;
    } else if pattern[0] == '*' {
      var rest := MatchSpells(scope[1..], pattern);
      pieces := [[scope[0]] + rest[0]] + rest[1..];
      assert pieces[1..] == rest[1..];
      assert [scope[0]] + (rest[0] + Flatten(rest[1..])) == scope;
    } else {
      var rest := MatchSpells(scope[1..], pattern[1..]);
      pieces := [[scope[0]]] + rest;
      assert pieces[1..] == rest;
      assert [scope[0]] + Flatten(rest) == scope;
    }
  }

  lemma {:induction false} SpellsMatch(pieces: seq<string>, pattern: string)
    requires Spells(pieces, pattern)
    ensures Matches(Flatten(pieces), pattern)
    decreases |pattern|, if pieces == [] then 0 else |pieces[0]|
  {
    if pattern != [] {
      var scope := Flatten(pieces);
      if pattern[0] == '*' && pieces[0] != "" {
        var fewer := [pieces[0][1..]] + pieces[1..];
        assert fewer[1..] == pieces[1..];
        assert forall c :: c in pieces[0][1..] ==> c in pieces[0];
        SpellsMatch(fewer, pattern);
        assert scope[1..] == Flatten(fewer) && scope[0] == pieces[0][0];
      } else {
        SpellsMatch(pieces[1..], pattern[1..]);
        assert pattern[0] != '*' ==> scope[1..] == Flatten(pieces[1..]);
        assert pattern[0] == '*' ==> scope == Flatten(pieces[1..]);
      }
    }
  }

  /** A scope matches exactly when it can be cut into pieces that the pattern's characters stand for. */
  lemma {:induction false} MatchingMeans(scope: string, pattern: string)
    ensures Matches(scope, pattern) <==> exists pieces :: Spells(pieces, pattern) && Flatten(pieces) == scope
  {
    if Matches(scope, pattern) {
      var pieces := MatchSpells(scope, pattern);
    }
    if pieces :| Spells(pieces, pattern) && Flatten(pieces) == scope {
      SpellsMatch(pieces, pattern);
    }
  }

  // -------------------------------------------------------------------- path segments

  predicate Segmentwise(scopes: seq<string>, patterns: seq<string>) {
    if scopes == [] || patterns == [] then scopes == [] && patterns == []
    else Matches(scopes[0], patterns[0]) && Segmentwise(scopes[1..], patterns[1..])
  }

  lemma {:induction false} SegmentwiseMeans(scopes: seq<string>, patterns: seq<string>)
    ensures Segmentwise(scopes, patterns) <==>
              |scopes| == |patterns| && forall i | 0 <= i < |patterns| :: Matches(scopes[i], patterns[i])
  {
    if scopes != [] && patterns != [] {
      SegmentwiseMeans(scopes[1..], patterns[1..]);
    }
  }

  lemma {:induction false} SplitHead(s: string)
    requires s != [] && s[0] != '/'
    ensures Split(s, '/')[0] != [] && Split(s, '/')[0][0] == s[0]
    ensures Split(s, '/')[0][1..] == Split(s[1..], '/')[0]
    ensures Split(s, '/')[1..] == Split(s[1..], '/')[1..]
  {
  }

  lemma {:induction false} SplitSlash(s: string)
    requires s != [] && s[0] == '/'
    ensures |Split(s, '/')| > 1 && Split(s, '/')[0] == [] && Split(s, '/')[1..] == Split(s[1..], '/')
  {
  }

  lemma {:induction false} SplitsAlike(scope: string, pattern: string)
    ensures Matches(scope, pattern) <==> Segmentwise(Split(scope, '/'), Split(pattern, '/'))
    decreases |pattern|, |scope|
  {
    hide Split;
    var s, p := Split(scope, '/'), Split(pattern, '/');
    if pattern == [] || scope == [] {
      EmptySplit();
    }
    if scope != [] && scope[0] != '/' {
      SplitHead(scope);
    }
    if scope != [] && scope[0] == '/' {
      SplitSlash(scope);
    }
    if pattern == [] {
    } else if pattern[0] == '/' {
      SplitSlash(pattern);
      if scope != [] && scope[0] == '/' {
        SplitsAlike(scope[1..], pattern[1..]);
      }
    } else {
      SplitHead(pattern);
      assert p[0] == [pattern[0]] + p[0][1..];
      if pattern[0] == '*' {
        SplitsAlike(scope, pattern[1..]);
      }
      if scope != [] && scope[0] != '/' {
        SplitsAlike(scope[1..], if pattern[0] == '*' then pattern else pattern[1..]);
      }
    }
  }

  lemma {:induction false} EmptySplit()
    ensures Split("", '/') == [""]
  {
  }

  /** Main result on patterns: a scope matches exactly when it has the pattern's number of
      segments and each segment matches its own. */
  lemma {:induction false} MatchesBySegment(scope: string, pattern: string)
    ensures var s, p := Split(scope, '/'), Split(pattern, '/');
            Matches(scope, pattern) <==> |s| == |p| && forall i | 0 <= i < |p| :: Matches(s[i], p[i])
  {
    SplitsAlike(scope, pattern);
    SegmentwiseMeans(Split(scope, '/'), Split(pattern, '/'));
  }

  lemma {:induction false} PatternMatchesItself(pattern: string)
    requires '/' !in pattern
    ensures Matches(pattern, pattern)
  {
    if pattern != [] {
      PatternMatchesItself(pattern[1..]);
    }
  }

  // ---------------------------------------------------------- collections to inventory

  predicate Wild(s: string) {
    '*' in s || '?' in s
  }

  /** The first segment with a wildcard. */
  function FirstWild(segments: seq<string>): (k: nat)
    requires exists i :: 0 <= i < |segments| && Wild(segments[i])
    ensures k < |segments| && Wild(segments[k]) && forall i | 0 <= i < k :: !Wild(segments[i])
  {
    if Wild(segments[0]) then 0
    else
      assert forall i | 0 < i < |segments| :: segments[i] == segments[1..][i - 1];
      FirstWild(segments[1..]) + 1
  }

  lemma {:induction false} WildSegment(s: string)
    requires Wild(s)
    ensures exists i :: 0 <= i < |Split(s, '/')| && Wild(Split(s, '/')[i])
  {
    var parts := Split(s, '/');
    var c :| c in s && (c == '*' || c == '?');
    SplitKeeps(s, c);
    var i :| 0 <= i < |parts| && c in parts[i];
    assert Wild(parts[i]);
  }

  lemma {:induction false} SplitKeeps(s: string, c: char)
    requires c in s && c != '/'
    ensures exists i :: 0 <= i < |Split(s, '/')| && c in Split(s, '/')[i]
  {
    var parts, rest := Split(s, '/'), Split(s[1..], '/');
    if s[0] == c {
      SplitHead(s);
      assert c in parts[0];
    } else {
      SplitKeeps(s[1..], c);
      var i :| 0 <= i < |rest| && c in rest[i];
      if s[0] == '/' {
        assert parts[i + 1] == rest[i];
      } else {
        assert i > 0 ==> parts[i] == rest[i];
        assert i == 0 ==> parts[0] == [s[0]] + rest[0];
      }
    }
  }

  /** The index of a pattern's first wildcard segment. */
  function WildIndex(pattern: string): (k: nat)
    requires Wild(pattern)
    ensures k < |Split(pattern, '/')| && Wild(Split(pattern, '/')[k])
  {
    WildSegment(pattern);
    FirstWild(Split(pattern, '/'))
  }

  function Children(scopes: seq<string>, suffix: seq<string>): seq<string> {
    if scopes == [] then [] else [Join([scopes[0]] + suffix, '/')] + Children(scopes[1..], suffix)
  }

  /** The scopes to query for a declared collection: the pattern itself, or one for each live
      resource that matches the pattern up to its first wildcard segment. */
  function ExpandInventoryScope(pattern: string, live: seq<string>): seq<string> {
    if !Wild(pattern) then [pattern]
    else
      var segments, k := Split(pattern, '/'), WildIndex(pattern);
      Children(Filter(live, (s: string) => |Split(s, '/')| == k + 1 && Matches(s, Join(segments[..k + 1], '/'))),
        segments[k + 1..])
  }

  lemma {:induction false} ChildrenMembers(scopes: seq<string>, suffix: seq<string>)
    ensures forall x :: x in Children(scopes, suffix) <==> exists s :: s in scopes && x == Join([s] + suffix, '/')
  {
    if scopes != [] {
      ChildrenMembers(scopes[1..], suffix);
      assert scopes == [scopes[0]] + scopes[1..];
    }
  }

  lemma {:induction false} JoinNested(front: seq<string>, suffix: seq<string>)
    requires front != []
    ensures Join([Join(front, '/')] + suffix, '/') == Join(front + suffix, '/')
  {
    if |front| == 1 {
      assert [Join(front, '/')] == front;
    } else if suffix == [] {
      assert front + suffix == front && [Join(front, '/')] + suffix == [Join(front, '/')];
    } else {
      JoinNested(front[1..], suffix);
      assert (front + suffix)[1..] == front[1..] + suffix;
      assert ([Join(front, '/')] + suffix)[1..] == suffix && ([Join(front[1..], '/')] + suffix)[1..] == suffix;
    }
  }

  /** Every scope queried for a pattern matches that pattern, so it has the pattern's number of
      segments; and every live parent gets its query. */
  lemma {:induction false} ExpansionStaysInPattern(pattern: string, live: seq<string>, scope: string)
    requires scope in ExpandInventoryScope(pattern, live)
    ensures |Split(scope, '/')| == |Split(pattern, '/')|
    ensures Matches(scope, pattern)
  {
    hide Split, Join, Matches, WildIndex, Wild;
    var p := Split(pattern, '/');
    SplitSegments(pattern, '/');
    JoinSplit(pattern, '/');
    if !Wild(pattern) {
      forall i | 0 <= i < |p|
        ensures Matches(p[i], p[i])
      {
        PatternMatchesItself(p[i]);
      }
      MatchesBySegment(pattern, pattern);
    } else {
      var k := WildIndex(pattern);
      var parentPattern, suffix := Join(p[..k + 1], '/'), p[k + 1..];
      var keep := (s: string) => |Split(s, '/')| == k + 1 && Matches(s, parentPattern);
      FilterMembers(live, keep);
      ChildrenMembers(Filter(live, keep), suffix);
      var parent :| parent in Filter(live, keep) && scope == Join([parent] + suffix, '/');
      ChildMatches(pattern, k, parent);
    }
  }

  lemma {:induction false} ChildMatches(pattern: string, k: nat, parent: string)
    requires k < |Split(pattern, '/')|
    requires Matches(parent, Join(Split(pattern, '/')[..k + 1], '/'))
    ensures var p := Split(pattern, '/');
            var scope := Join([parent] + p[k + 1..], '/');
            && |Split(scope, '/')| == |p| && Matches(scope, pattern)
  {
    hide Split, Join, Matches;
    var p, q := Split(pattern, '/'), Split(parent, '/');
    var front, suffix := p[..k + 1], p[k + 1..];
    SplitSegments(pattern, '/');
    SplitSegments(parent, '/');
    JoinSplit(parent, '/');
    SplitJoin(front, '/');
    MatchesBySegment(parent, Join(front, '/'));
    JoinNested(q, suffix);
    var scope := Join([parent] + suffix, '/');
    SplitJoin(q + suffix, '/');
    forall i | 0 <= i < |p|
      ensures Matches((q + suffix)[i], p[i])
    {
      if i <= k {
        assert front[i] == p[i];
      } else {
        assert (q + suffix)[i] == p[i];
        PatternMatchesItself(p[i]);
      }
    }
    MatchesBySegment(scope, pattern);
  }

  /** Nothing live is overlooked: each parent that matches a pattern's first wildcard gets its query. */
  lemma {:induction false} ExpansionIsComplete(pattern: string, live: seq<string>, parent: string)
    requires parent in live && Wild(pattern)
    requires Matches(parent, Join(Split(pattern, '/')[..WildIndex(pattern) + 1], '/'))
    ensures Join([parent] + Split(pattern, '/')[WildIndex(pattern) + 1..], '/') in ExpandInventoryScope(pattern, live)
  {
    hide Split, Join, Matches, WildIndex, Wild;
    var p, k := Split(pattern, '/'), WildIndex(pattern);
    var parentPattern := Join(p[..k + 1], '/');
    SplitSegments(pattern, '/');
    SplitJoin(p[..k + 1], '/');
    MatchesBySegment(parent, parentPattern);
    var keep := (s: string) => |Split(s, '/')| == k + 1 && Matches(s, parentPattern);
    FilterMembers(live, keep);
    ChildrenMembers(Filter(live, keep), p[k + 1..]);
  }
}
