/** The registry of REST calls: a tree of path segments, and what looking up in it means for
    the list of registered patterns. */
module RestApis {
  import opened Wrappers

  type Segment = string

  const WILDCARD: Segment := "{}"

  /** What is registered for a pattern: a function, and descriptions of its arguments. */
  datatype Call = Call(name: string, arguments: seq<string>)

  datatype Found = Found(name: string, captured: seq<Segment>, arguments: seq<string>)

  // ---------------------------------------------------------------- paths

  /** The parts of a string between slashes. */
  function Split(path: string): (parts: seq<Segment>)
    ensures parts != []
  {
    if path == [] then [""]
    else
      var rest := Split(path[1..]);
      if path[0] == '/' then [""] + rest else [[path[0]] + rest[0]] + rest[1..]
  }

  /** One slash at the start is left out; one at the end makes an empty last segment. */
  function Segments(path: string): (parts: seq<Segment>)
    ensures parts != []
  {
    if path != [] && path[0] == '/' then Split(path[1..]) else Split(path)
  }

  function Joined(parts: seq<Segment>): string
    requires parts != []
  {
    if |parts| == 1 then parts[0] else parts[0] + "/" + Joined(parts[1..])
  }

  lemma {:induction false} SplitJoin(path: string)
    ensures Joined(Split(path)) == path
    ensures forall part :: part in Split(path) ==> '/' !in part
  {
    if path != [] {
      SplitJoin(path[1..]);
      var rest := Split(path[1..]);
      if path[0] == '/' {
        assert Joined([""] + rest) == "" + "/" + Joined(rest);
      } else {
        assert Joined([[path[0]] + rest[0]] + rest[1..]) == [path[0]] + Joined(rest);
      }
    }
  }

  /** The index of the first question mark, or the length. */
  function Question(path: string): (i: nat)
    ensures i <= |path| && (i < |path| ==> path[i] == '?') && '?' !in path[..i]
  {
    if path == [] || path[0] == '?' then 0 else 1 + Question(path[1..])
  }

  function Pattern(host: string, verb: string, path: string): seq<Segment> {
    [host, verb] + Segments(path)
  }

  /** The segments of a request: a query, even an empty one, stays with the last of them. */
  function Request(host: string, verb: string, path: string): seq<Segment> {
    var q := Question(path);
    var parts := Pattern(host, verb, path[..q]);
    if q == |path| then parts else parts[..|parts| - 1] + [parts[|parts| - 1] + path[q..]]
  }

  /** A path without one slash at the start. */
  function Bare(path: string): string {
    if path != [] && path[0] == '/' then path[1..] else path
  }

  lemma PatternParts(host: string, verb: string, path: string)
    ensures Pattern(host, verb, path)[2..] == Segments(path) && Joined(Segments(path)) == Bare(path)
  {
    SplitJoin(Bare(path));
  }

  /** Host, method and path can all be told from a pattern, but for a slash at the start. */
  lemma PatternInjective(host: string, verb: string, path: string, host': string, verb': string, path': string)
    ensures Pattern(host, verb, path) == Pattern(host', verb', path') <==>
            host == host' && verb == verb' && Bare(path) == Bare(path')
  {
    PatternParts(host, verb, path);
    PatternParts(host', verb', path');
    var a, b := Pattern(host, verb, path), Pattern(host', verb', path');
    assert a[0] == host && a[1] == verb && b[0] == host' && b[1] == verb';
    if a == b {
      assert a[2..] == b[2..];
    }
  }

  lemma {:induction false} JoinedMore(parts: seq<Segment>, more: string)
    requires parts != []
    ensures Joined(parts[..|parts| - 1] + [parts[|parts| - 1] + more]) == Joined(parts) + more
  {
    var longer := parts[..|parts| - 1] + [parts[|parts| - 1] + more];
    if |parts| > 1 {
      JoinedMore(parts[1..], more);
      assert longer[1..] == parts[1..][..|parts| - 2] + [parts[1..][|parts| - 2] + more];
      assert parts[0] + "/" + (Joined(parts[1..]) + more) == (parts[0] + "/" + Joined(parts[1..])) + more;
    }
  }

  lemma BareOfTwo(path: string, query: string)
    requires path != [] || query == [] || query[0] != '/'
    ensures Bare(path) + query == Bare(path + query)
  {
    if path == [] {
      assert path + query == query;
    } else {
      assert (path + query)[1..] == path[1..] + query;
    }
  }

  lemma QueryParts(front: seq<Segment>, parts: seq<Segment>, query: string)
    requires parts != [] && |front| == 2
    ensures var all := front + parts;
      var request := all[..|all| - 1] + [all[|all| - 1] + query];
      request[..2] == front && request[2..] != [] && Joined(request[2..]) == Joined(parts) + query
  {
    JoinedMore(parts, query);
    var all := front + parts;
    var request := all[..|all| - 1] + [all[|all| - 1] + query];
    assert request[2..] == parts[..|parts| - 1] + [parts[|parts| - 1] + query];
  }

  /** Nothing of a request is lost: its segments put together are its path, query and all. */
  lemma RequestParts(host: string, verb: string, path: string)
    ensures var request := Request(host, verb, path);
      request[0] == host && request[1] == verb && Joined(request[2..]) == Bare(path)
  {
    var q := Question(path);
    var parts := Segments(path[..q]);
    PatternParts(host, verb, path[..q]);
    assert path[..q] + path[q..] == path;
    if q < |path| {
      QueryParts([host, verb], parts, path[q..]);
      BareOfTwo(path[..q], path[q..]);
    }
  }

  // ---------------------------------------------------------------- the tree

  datatype Tree = Tree(children: map<Segment, Tree>, call: Option<Call>)

  const BARE := Tree(map[], None)

  function Child(tree: Tree, segment: Segment): Tree {
    if segment in tree.children then tree.children[segment] else BARE
  }

  function Registered(tree: Tree, pattern: seq<Segment>, call: Call): Tree
    decreases |pattern|
  {
    if pattern == [] then tree.(call := Some(call))
    else
      tree.(children := tree.children[pattern[0] := Registered(Child(tree, pattern[0]), pattern[1..], call)])
  }

  /** Literal before wildcard, and no way back. */
  function Walk(tree: Tree, request: seq<Segment>): Option<(Call, seq<Segment>)> {
    if request == [] then
      if tree.call.Some? then Some((tree.call.value, [])) else None
    else if request[0] in tree.children then
      Walk(tree.children[request[0]], request[1..])
    else if WILDCARD in tree.children then
      match Walk(tree.children[WILDCARD], request[1..])
      case None => None
      case Some((call, captured)) => Some((call, [request[0]] + captured))
    else
      None
  }

  // ---------------------------------------------------------------- the list of patterns

  datatype Rule = Rule(pattern: seq<Segment>, call: Call)

  /** The tree that a list of registrations, first to last, has built. */
  function TreeOf(rules: seq<Rule>): Tree {
    if rules == [] then BARE
    else
      var last := rules[|rules| - 1];
      Registered(TreeOf(rules[..|rules| - 1]), last.pattern, last.call)
  }

  /** Some pattern starts with this. */
  predicate Known(rules: seq<Rule>, prefix: seq<Segment>) {
    exists i :: 0 <= i < |rules| && prefix <= rules[i].pattern
  }

  /** What was last registered for exactly this pattern. */
  function LastCall(rules: seq<Rule>, pattern: seq<Segment>): Option<Call> {
    if rules == [] then None
    else
      var last := rules[|rules| - 1];
      if last.pattern == pattern then Some(last.call) else LastCall(rules[..|rules| - 1], pattern)
  }

  /** The request is taken along the pattern: each segment is the pattern's own, or meets a
      wildcard where no pattern with the same beginning has that segment literally. */
  predicate Follows(rules: seq<Rule>, pattern: seq<Segment>, request: seq<Segment>) {
    && |pattern| == |request|
    && forall i :: 0 <= i < |pattern| ==>
         pattern[i] == request[i] || (pattern[i] == WILDCARD && !Known(rules, pattern[..i] + [request[i]]))
  }

  /** The segments that meet a wildcard, in path order. A segment that is itself written as a
      wildcard is not captured. */
  function Captures(pattern: seq<Segment>, request: seq<Segment>): seq<Segment>
    requires |pattern| == |request|
  {
    if pattern == [] then []
    else (if pattern[0] == request[0] then [] else [request[0]]) + Captures(pattern[1..], request[1..])
  }

  // ---------------------------------------------------------------- the tree holds the patterns

  /** The subtree at the end of a path; None when the path leaves the tree. */
  function At(tree: Tree, path: seq<Segment>): Option<Tree> {
    if path == [] then Some(tree)
    else if path[0] in tree.children then At(tree.children[path[0]], path[1..])
    else None
  }

  lemma {:induction false} RegisteredAt(tree: Tree, pattern: seq<Segment>, call: Call, path: seq<Segment>)
    ensures At(Registered(tree, pattern, call), path).Some? <==> At(tree, path).Some? || path <= pattern
    ensures At(Registered(tree, pattern, call), path).Some? ==>
              At(Registered(tree, pattern, call), path).value.call ==
              if path == pattern then Some(call) else if At(tree, path).Some? then At(tree, path).value.call else None
    decreases |pattern|
  {
    if pattern != [] && path != [] {
      if path[0] == pattern[0] {
        RegisteredAt(Child(tree, path[0]), pattern[1..], call, path[1..]);
        assert path == pattern <==> path[1..] == pattern[1..];
      }
    }
  }

  lemma KnownStep(rules: seq<Rule>, path: seq<Segment>)
    requires rules != []
    ensures Known(rules, path) <==> Known(rules[..|rules| - 1], path) || path <= rules[|rules| - 1].pattern
  {
    var n := |rules| - 1;
    if Known(rules[..n], path) {
      var i :| 0 <= i < n && path <= rules[..n][i].pattern;
      assert path <= rules[i].pattern;
    }
    if Known(rules, path) && !(path <= rules[n].pattern) {
      var i :| 0 <= i < |rules| && path <= rules[i].pattern;
      assert path <= rules[..n][i].pattern;
    }
  }

  /** The tree has a subtree wherever some pattern starts, and there the last call registered. */
  lemma {:induction false} TreeAt(rules: seq<Rule>, path: seq<Segment>)
    requires path != []
    ensures At(TreeOf(rules), path).Some? <==> Known(rules, path)
    ensures At(TreeOf(rules), path).Some? ==> At(TreeOf(rules), path).value.call == LastCall(rules, path)
    ensures !Known(rules, path) ==> LastCall(rules, path) == None
  {
    if rules != [] {
      var n := |rules| - 1;
      TreeAt(rules[..n], path);
      RegisteredAt(TreeOf(rules[..n]), rules[n].pattern, rules[n].call, path);
      KnownStep(rules, path);
    }
  }

  // ---------------------------------------------------------------- walking is following

  /** The same as Follows, for the paths of a tree. */
  predicate Leads(tree: Tree, pattern: seq<Segment>, request: seq<Segment>) {
    && |pattern| == |request|
    && At(tree, pattern).Some?
    && forall i :: 0 <= i < |pattern| ==>
         pattern[i] == request[i] || (pattern[i] == WILDCARD && At(tree, pattern[..i] + [request[i]]).None?)
  }

  lemma LeadsOn(tree: Tree, pattern: seq<Segment>, request: seq<Segment>)
    requires Leads(tree, pattern, request) && pattern != []
    ensures pattern[0] in tree.children
    ensures pattern[0] == request[0] || (pattern[0] == WILDCARD && request[0] !in tree.children)
    ensures Leads(tree.children[pattern[0]], pattern[1..], request[1..])
  {
    assert pattern[..0] + [request[0]] == [request[0]] && [request[0]][1..] == [];
    assert request[0] in tree.children ==> At(tree, [request[0]]) == At(tree.children[request[0]], []);
    forall i | 0 <= i < |pattern| - 1
      ensures pattern[1..][i] == request[1..][i] ||
              (pattern[1..][i] == WILDCARD &&
               At(tree.children[pattern[0]], pattern[1..][..i] + [request[1..][i]]).None?)
    {
      var path := pattern[..i + 1] + [request[i + 1]];
      assert path[0] == pattern[0] && path[1..] == pattern[1..][..i] + [request[1..][i]];
    }
  }

  /** A call registered where the request leads is the one that is found. */
  lemma {:induction false} LeadsToFound(tree: Tree, pattern: seq<Segment>, request: seq<Segment>)
    requires Leads(tree, pattern, request) && At(tree, pattern).value.call.Some?
    ensures Walk(tree, request) == Some((At(tree, pattern).value.call.value, Captures(pattern, request)))
    decreases |pattern|
  {
    if pattern != [] {
      LeadsOn(tree, pattern, request);
      var child := tree.children[pattern[0]];
      LeadsToFound(child, pattern[1..], request[1..]);
      assert At(tree, pattern) == At(child, pattern[1..]);
      assert Captures(pattern, request) ==
             (if pattern[0] == request[0] then [] else [request[0]]) + Captures(pattern[1..], request[1..]);
      assert [] + Captures(pattern[1..], request[1..]) == Captures(pattern[1..], request[1..]);
    }
  }

  lemma LeadsFrom(tree: Tree, segment: Segment, rest: seq<Segment>, request: seq<Segment>)
    requires request != [] && segment in tree.children && Leads(tree.children[segment], rest, request[1..])
    requires segment == request[0] || (segment == WILDCARD && request[0] !in tree.children)
    ensures Leads(tree, [segment] + rest, request)
    ensures At(tree, [segment] + rest) == At(tree.children[segment], rest)
  {
    var pattern := [segment] + rest;
    assert pattern[1..] == rest;
    forall i | 0 <= i < |pattern|
      ensures pattern[i] == request[i] || (pattern[i] == WILDCARD && At(tree, pattern[..i] + [request[i]]).None?)
    {
      var path := pattern[..i] + [request[i]];
      if i == 0 {
        assert path == [request[0]];
      } else {
        assert request[1..][i - 1] == request[i];
        assert path[0] == segment && path[1..] == rest[..i - 1] + [request[1..][i - 1]];
      }
    }
  }

  /** What is found was registered where the request leads. */
  lemma {:induction false} FoundIsLed(tree: Tree, request: seq<Segment>) returns (pattern: seq<Segment>)
    requires Walk(tree, request).Some?
    ensures Leads(tree, pattern, request) && At(tree, pattern).value.call == Some(Walk(tree, request).value.0)
    decreases |request|
  {
    if request == [] {
      pattern := [];
    } else {
      var segment := if request[0] in tree.children then request[0] else WILDCARD;
      var rest := FoundIsLed(tree.children[segment], request[1..]);
      LeadsFrom(tree, segment, rest, request);
      pattern := [segment] + rest;
    }
  }

  lemma {:induction false} PrefixKnown(rules: seq<Rule>, pattern: seq<Segment>, request: seq<Segment>)
    requires request != []
    ensures Leads(TreeOf(rules), pattern, request) <==> Follows(rules, pattern, request) && Known(rules, pattern)
  {
    if |pattern| == |request| {
      TreeAt(rules, pattern);
      forall i | 0 <= i < |pattern|
        ensures At(TreeOf(rules), pattern[..i] + [request[i]]).None? <==> !Known(rules, pattern[..i] + [request[i]])
      {
        TreeAt(rules, pattern[..i] + [request[i]]);
      }
    }
  }

  /** The walk through the tree finds just the call last registered for a pattern that the
      request is taken along, with the segments the pattern captures; and nothing when there is none. */
  lemma WalkFollows(rules: seq<Rule>, request: seq<Segment>)
    requires request != []
    ensures forall pattern :: Follows(rules, pattern, request) && LastCall(rules, pattern).Some? ==>
              Walk(TreeOf(rules), request) == Some((LastCall(rules, pattern).value, Captures(pattern, request)))
    ensures Walk(TreeOf(rules), request).Some? ==>
              exists pattern :: Follows(rules, pattern, request) && LastCall(rules, pattern).Some?
  {
    var tree := TreeOf(rules);
    forall pattern | Follows(rules, pattern, request) && LastCall(rules, pattern).Some?
      ensures Walk(tree, request) == Some((LastCall(rules, pattern).value, Captures(pattern, request)))
    {
      TreeAt(rules, pattern);
      PrefixKnown(rules, pattern, request);
      LeadsToFound(tree, pattern, request);
    }
    if Walk(tree, request).Some? {
      var pattern := FoundIsLed(tree, request);
      TreeAt(rules, pattern);
      PrefixKnown(rules, pattern, request);
    }
  }

  lemma {:induction false} NoCaptures(pattern: seq<Segment>)
    ensures Captures(pattern, pattern) == []
  {
    if pattern != [] {
      NoCaptures(pattern[1..]);
    }
  }

  /** A call that was just registered is found for its own host, method and path. */
  lemma RegisteredIsFound(rules: seq<Rule>, host: string, verb: string, path: string, call: Call)
    requires '?' !in path
    ensures Walk(TreeOf(rules + [Rule(Pattern(host, verb, path), call)]), Request(host, verb, path)) == Some((call, []))
  {
    var pattern := Pattern(host, verb, path);
    var longer := rules + [Rule(pattern, call)];
    assert Question(path) == |path| && path[..|path|] == path;
    NoCaptures(pattern);
    WalkFollows(longer, pattern);
    assert Follows(longer, pattern, pattern) && LastCall(longer, pattern) == Some(call);
  }

  /** A pattern is followed only by requests for its host, with its method, and a path of as many
      segments, unless host or method is a wildcard. */
  lemma FollowedFor(rules: seq<Rule>, host: string, verb: string, path: string,
                    host': string, verb': string, path': string)
    requires Follows(rules, Pattern(host, verb, path), Request(host', verb', path'))
    ensures (host == host' || host == WILDCARD) && (verb == verb' || verb == WILDCARD)
    ensures |Segments(path)| == |Segments(path'[..Question(path')])|
  {
    RequestParts(host', verb', path');
    var pattern, request := Pattern(host, verb, path), Request(host', verb', path');
    assert pattern[0] == request[0] || pattern[0] == WILDCARD;
    assert pattern[1] == request[1] || pattern[1] == WILDCARD;
  }

  // ---------------------------------------------------------------- the object

  /** The inner mappings are reachable from the registry alone, so a tree of values says the
      same as mappings that are changed in place. */
  class RestApi {
    var api: Tree
    ghost var rules: seq<Rule>

    ghost predicate Valid()
      reads this
    {
      api == TreeOf(rules)
    }

    constructor ()
      ensures Valid() && rules == []
    {
      api := BARE;
      rules := [];
    }

    method Register(host: string, verb: string, path: string, call: Call)
      requires Valid()
      modifies this
      ensures Valid() && rules == old(rules) + [Rule(Pattern(host, verb, path), call)]
    {
      var pattern := Pattern(host, verb, path);
      api := Registered(api, pattern, call);
      rules := rules + [Rule(pattern, call)];
      assert rules[..|rules| - 1] == old(rules);
    }

    /** Exactly what the list of registrations means for the request. */
    method Lookup(host: string, verb: string, path: string) returns (found: Option<Found>)
      requires Valid()
      ensures var request := Request(host, verb, path);
        && (forall pattern :: Follows(rules, pattern, request) && LastCall(rules, pattern).Some? ==>
              var call := LastCall(rules, pattern).value;
              found == Some(Found(call.name, Captures(pattern, request), call.arguments)))
        && (found.Some? ==> exists pattern :: Follows(rules, pattern, request) && LastCall(rules, pattern).Some?)
    {
      var request := Request(host, verb, path);
      WalkFollows(rules, request);
      found := WalkDown(api, request);
    }
  }

  /** The loop of lookup. */
  method WalkDown(tree: Tree, request: seq<Segment>) returns (found: Option<Found>)
    ensures match Walk(tree, request)
      case None => found == None
      case Some((call, captured)) => found == Some(Found(call.name, captured, call.arguments))
  {
    var args: seq<Segment> := [];
    var node := tree;
    var i := 0;
    assert request[0..] == request && forall captured: seq<Segment> :: args + captured == captured;
    while i < |request|
      invariant 0 <= i <= |request|
      invariant match Walk(node, request[i..])
        case None => Walk(tree, request) == None
        case Some((call, captured)) => Walk(tree, request) == Some((call, args + captured))
    {
      var str := request[i];
      assert request[i..][1..] == request[i + 1..];
      ghost var before := args;
      if str in node.children {
        node := node.children[str];
      } else if WILDCARD in node.children {
        node := node.children[WILDCARD];
        args := args + [str];
        assert forall captured: seq<Segment> :: before + ([str] + captured) == args + captured;
      } else {
        return None;
      }
      i := i + 1;
    }
    if node.call.None? {
      return None;
    }
    assert args + [] == args;
    found := Some(Found(node.call.value.name, args, node.call.value.arguments));
  }
}
