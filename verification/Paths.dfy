/** Remote paths: which ones are safe, and the order manifests are sorted in. */
module Paths {
  import opened Words

  type Path = Bytes

  const SLASH: byte := 47
  const BACKSLASH: byte := 92
  const NUL: byte := 0
  const DOT: Bytes := [46]
  const DOT_DOT: Bytes := [46, 46]
  /** ".syncwire-partials", where the server keeps unfinished uploads. */
  const PARTIALS: Bytes := [46, 115, 121, 110, 99, 119, 105, 114, 101, 45, 112, 97, 114, 116, 105, 97, 108, 115]
  const MAX_COMPONENT: nat := 255
  const MAX_PATH: nat := 1024

  // ---------------------------------------------------------------------------
  // Safety.
  // ---------------------------------------------------------------------------

  /** The index of the first slash, or the length if there is none. */
  function FirstSlash(path: Path): (k: nat)
    ensures k <= |path|
    ensures forall i :: 0 <= i < k ==> path[i] != SLASH
    ensures k < |path| ==> path[k] == SLASH
  {
    if path == [] || path[0] == SLASH then 0 else 1 + FirstSlash(path[1..])
  }

  /** The components between slashes; there is always at least one. */
  function Split(path: Path): (components: seq<Bytes>)
    ensures components != []
    decreases |path|
  {
    var k := FirstSlash(path);
    if k == |path| then [path] else [path[..k]] + Split(path[k + 1..])
  }

  function Join(components: seq<Bytes>): Path
    requires components != []
  {
    if |components| == 1 then components[0] else components[0] + [SLASH] + Join(components[1..])
  }

  predicate LegalComponent(c: Bytes)
  {
    c != [] && c != DOT && c != DOT_DOT && c != PARTIALS && |c| <= MAX_COMPONENT
  }

  predicate LegalCharacters(path: Path)
  {
    forall i :: 0 <= i < |path| ==> path[i] != BACKSLASH && path[i] != NUL
  }

  predicate LegalComponents(path: Path)
  {
    forall c :: c in Split(path) ==> LegalComponent(c)
  }

  /** A path every one of whose components is legal. */
  predicate Safe(path: Path)
  {
    |path| <= MAX_PATH && LegalCharacters(path) && LegalComponents(path)
  }

  /** `find('/', start)`: the next slash at or after `start`, or the length. */
  method FindSlash(path: Path, start: nat) returns (k: nat)
    requires start <= |path|
    ensures k == start + FirstSlash(path[start..])
  {
    k := start;
    while k < |path| && path[k] != SLASH
      invariant start <= k <= |path|
      invariant start + FirstSlash(path[start..]) == k + FirstSlash(path[k..])
    {
      assert path[k..][1..] == path[k + 1..];
      k := k + 1;
    }
  }

  /** `is_safe_remote_path`: the scan accepts exactly the safe paths. */
  method IsSafeRemotePath(path: Path) returns (ok: bool)
    ensures ok <==> Safe(path)
  {
    hide LegalComponent, Split;
    EdgeSlash(path);
    if |path| == 0 || |path| > MAX_PATH || path[0] == SLASH || path[|path| - 1] == SLASH {
      return false;
    }
    for i := 0 to |path|
      invariant LegalCharacters(path[..i])
    {
      if path[i] == BACKSLASH || path[i] == NUL {
        return false;
      }
      assert path[..i + 1] == path[..i] + [path[i]];
    }
    assert path[..|path|] == path;

    var start := 0;
    assert path[0..] == path;
    while start < |path|
      invariant start < |path| && (LegalComponents(path) <==> LegalComponents(path[start..]))
      decreases |path| - start
    {
      var separator := FindSlash(path, start);
      ghost var rest := path[start..];
      var component := path[start..separator];
      assert component == rest[..FirstSlash(rest)];
      LegalByParts(rest);
      if component == [] || component == DOT || component == DOT_DOT || component == PARTIALS
         || |component| > MAX_COMPONENT {
        return false;
      }
      if separator == |path| {
        return true;
      }
      assert rest[FirstSlash(rest) + 1..] == path[separator + 1..];
      start := separator + 1;
    }
  }

  /** The components are legal when the first one is and those after the first slash are. */
  lemma LegalByParts(path: Path)
    ensures var k := FirstSlash(path); var first := path[..k];
      LegalComponents(path) <==>
        && first != [] && first != DOT && first != DOT_DOT && first != PARTIALS && |first| <= MAX_COMPONENT
        && (k < |path| ==> LegalComponents(path[k + 1..]))
  {
    SplitFirst(path);
    assert Split(path)[0] in Split(path);
    assert FirstSlash(path) == |path| ==> path[..|path|] == path;
  }

  lemma SplitFirst(path: Path)
    ensures var k := FirstSlash(path);
      && Split(path)[0] == path[..k]
      && (k == |path| ==> Split(path) == [path])
      && (k < |path| ==> forall c :: c in Split(path) <==> c == path[..k] || c in Split(path[k + 1..]))
  {
  }

  /** An empty path, or a leading or trailing slash, shows up as an illegal component. */
  lemma {:induction false} EdgeSlash(path: Path)
    ensures path == [] || path[0] == SLASH || path[|path| - 1] == SLASH ==> !LegalComponents(path)
    decreases |path|
  {
    var k := FirstSlash(path);
    LegalByParts(path);
    if k < |path| {
      EdgeSlash(path[k + 1..]);
    }
  }

  lemma SafeLength(path: Path)
    requires Safe(path)
    ensures 0 < |path| <= MAX_PATH
  {
    EdgeSlash(path);
  }

  lemma {:induction false} JoinSplit(path: Path)
    ensures Join(Split(path)) == path
    decreases |path|
  {
    hide Join, FirstSlash;
    JoinOne(path);
    var k := FirstSlash(path);
    if k < |path| {
      var rest := path[k + 1..];
      JoinSplit(rest);
      JoinCons(path[..k], Split(rest));
      assert path == path[..k] + [SLASH] + rest;
    }
  }

  lemma JoinOne(path: Path)
    ensures Join([path]) == path
  {
  }

  lemma JoinCons(first: Bytes, components: seq<Bytes>)
    requires components != []
    ensures Join([first] + components) == first + [SLASH] + Join(components)
  {
    assert ([first] + components)[1..] == components;
  }

  /** Walking a path from a directory, as a file system would; None once it leaves the root. */
  function Walk(stack: seq<Bytes>, components: seq<Bytes>): (r: Option<seq<Bytes>>)
    decreases |components|
  {
    if components == [] then Some(stack)
    else if components[0] == [] || components[0] == DOT then Walk(stack, components[1..])
    else if components[0] == DOT_DOT then
      if stack == [] then None else Walk(stack[..|stack| - 1], components[1..])
    else Walk(stack + [components[0]], components[1..])
  }

  lemma {:induction false} LegalWalk(stack: seq<Bytes>, components: seq<Bytes>)
    requires forall c :: c in components ==> LegalComponent(c)
    ensures Walk(stack, components) == Some(stack + components)
    decreases |components|
  {
    if components == [] {
      assert stack + components == stack;
    } else {
      assert LegalComponent(components[0]);
      LegalWalk(stack + [components[0]], components[1..]);
      assert stack + [components[0]] + components[1..] == stack + components;
    }
  }

  /**
   * A safe path names an object strictly below the root, by exactly its components, each step
   * of the way one level deeper, and never inside the partial store.
   */
  lemma SafeStaysBelowRoot(path: Path, n: nat)
    requires Safe(path) && n <= |Split(path)|
    ensures Walk([], Split(path)[..n]) == Some(Split(path)[..n])
    ensures 1 <= |Split(path)| && PARTIALS !in Split(path)
    ensures path != [] && path[0] != SLASH
  {
    LegalWalk([], Split(path)[..n]);
    assert [] + Split(path)[..n] == Split(path)[..n];
    EdgeSlash(path);
  }

  // ---------------------------------------------------------------------------
  // Order.
  // ---------------------------------------------------------------------------

  /** `std::string`'s order: lexicographic on unsigned bytes. */
  predicate Less(a: Path, b: Path)
  {
    if b == [] then false
    else if a == [] then true
    else a[0] < b[0] || (a[0] == b[0] && Less(a[1..], b[1..]))
  }

  lemma {:induction false} LessIrreflexive(a: Path)
    ensures !Less(a, a)
  {
    if a != [] {
      LessIrreflexive(a[1..]);
    }
  }

  lemma {:induction false} LessTransitive(a: Path, b: Path, c: Path)
    requires Less(a, b) && Less(b, c)
    ensures Less(a, c)
  {
    if a != [] && a[0] == b[0] == c[0] {
      LessTransitive(a[1..], b[1..], c[1..]);
    }
  }

  lemma {:induction false} LessTotal(a: Path, b: Path)
    ensures Less(a, b) || a == b || Less(b, a)
  {
    if a != [] && b != [] && a[0] == b[0] {
      LessTotal(a[1..], b[1..]);
      assert a == [a[0]] + a[1..] && b == [b[0]] + b[1..];
    }
  }

  lemma LessAsymmetric(a: Path, b: Path)
    requires Less(a, b)
    ensures a != b && !Less(b, a)
  {
    LessIrreflexive(a);
    if Less(b, a) {
      LessTransitive(a, b, a);
    }
  }

  // ---------------------------------------------------------------------------
  // Directories.
  // ---------------------------------------------------------------------------

  /** `a` names a directory on the way to `b`. */
  predicate Above(a: Path, b: Path)
  {
    |a| < |b| && b[..|a|] == a && b[|a|] == SLASH
  }

  lemma {:induction false} SplitAtFirst(path: Path)
    ensures var k := FirstSlash(path);
      && Split(path)[0] == path[..k]
      && (k == |path| ==> Split(path) == [path])
      && (k < |path| ==> Split(path)[1..] == Split(path[k + 1..]))
  {
    hide FirstSlash;
    var k := FirstSlash(path);
    assert path[..|path|] == path;
    if k < |path| {
      assert ([path[..k]] + Split(path[k + 1..]))[1..] == Split(path[k + 1..]);
    }
  }

  lemma FirstSlashAt(path: Path, k: nat)
    requires k <= |path| && (forall i :: 0 <= i < k ==> path[i] != SLASH) && (k < |path| ==> path[k] == SLASH)
    ensures FirstSlash(path) == k
  {
  }

  lemma AboveSharesFirst(a: Path, b: Path)
    requires Above(a, b)
    ensures FirstSlash(b) == FirstSlash(a) && b[..FirstSlash(a)] == a[..FirstSlash(a)]
  {
    assert forall t :: 0 <= t < |a| ==> b[t] == b[..|a|][t];
    FirstSlashAt(b, FirstSlash(a));
  }

  /** It is so exactly if its components are the first of the other's, and not all. */
  lemma {:induction false} AboveIsAncestor(a: Path, b: Path)
    ensures Above(a, b) <==> |Split(a)| < |Split(b)| && Split(b)[..|Split(a)|] == Split(a)
    decreases |a|
  {
    hide FirstSlash, Split;
    var i, j := FirstSlash(a), FirstSlash(b);
    SplitAtFirst(a);
    SplitAtFirst(b);
    var sa, sb := Split(a), Split(b);
    if Above(a, b) {
      AboveSharesFirst(a, b);
    }
    if i == |a| {
      if |sa| < |sb| && sb[..|sa|] == sa {
        assert sb[0] == sb[..1][0] == a;
        assert b[..|a|] == a;
      }
    } else if i == j && j < |b| && a[..i] == b[..i] {
      var ta, tb := a[i + 1..], b[i + 1..];
      AboveIsAncestor(ta, tb);
      assert a == a[..i] + [SLASH] + ta && b == b[..i] + [SLASH] + tb;
      assert Above(a, b) <==> Above(ta, tb) by { AboveTails(a, b, i); }
      assert sa == [sa[0]] + Split(ta) && sb == [sb[0]] + Split(tb);
      PrefixTails(sa, sb);
    }
  }

  lemma AboveTails(a: Path, b: Path, i: nat)
    requires i < |a| && i < |b| && a[..i + 1] == b[..i + 1]
    ensures Above(a, b) <==> Above(a[i + 1..], b[i + 1..])
  {
    var ta, tb := a[i + 1..], b[i + 1..];
    assert a == a[..i + 1] + ta && b == a[..i + 1] + tb;
    if Above(ta, tb) {
      assert b[..|a|] == a[..i + 1] + tb[..|ta|];
    }
    if Above(a, b) {
      assert tb[..|ta|] == b[..|a|][i + 1..];
    }
  }

  lemma PrefixTails(sa: seq<Bytes>, sb: seq<Bytes>)
    requires sa != [] && sb != [] && sa[0] == sb[0]
    ensures |sa| < |sb| && sb[..|sa|] == sa <==> |sa[1..]| < |sb[1..]| && sb[1..][..|sa[1..]|] == sa[1..]
  {
    if |sa| < |sb| {
      assert sb[1..][..|sa| - 1] == sb[..|sa|][1..];
      assert sb[..|sa|] == [sb[0]] + sb[1..][..|sa| - 1];
      assert sa == [sa[0]] + sa[1..];
    }
  }
}
