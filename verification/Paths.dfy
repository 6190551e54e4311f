/** Store paths: splitting and normalising keys, Go's path.Join, the prefix a view asks for. */
module Paths {
  import opened Text

  // ----- store.go: keys split at '/' -----

  /** The path components of a key. */
  function SplitKey(key: string): seq<string>
  {
    if '/' in key then Split(key, '/') else [key]
  }

  function Normalize(key: string): string
  {
    "/" + Join(SplitKey(key), '/')
  }

  /** strings.TrimPrefix(s, "/") */
  function TrimSlash(s: string): string
  {
    if "/" <= s then s[1..] else s
  }

  /** The key the etcd client is given. */
  function EtcdNormalize(key: string): string
  {
    TrimSlash(Normalize(key))
  }

  /** Splitting and joining a key gives the key back, so the store key is "/" followed by the
      key (two slashes when it had one) and what etcd is given is the key itself. */
  lemma NormalizeIsIdentity(key: string)
    ensures Join(SplitKey(key), '/') == key
    ensures Normalize(key) == "/" + key
    ensures EtcdNormalize(key) == key
    ensures forall i :: 0 <= i < |SplitKey(key)| ==> '/' !in SplitKey(key)[i]
  {
    JoinSplit(key, '/');
    PiecesAreApart(key, '/');
  }

  // ----- path containment -----

  /** k is p itself or lies below p in the tree. */
  predicate Covers(p: string, k: string)
  {
    k == p || p + "/" <= k
  }

  /** k lies strictly below the directory root. */
  predicate Under(root: string, k: string)
  {
    root + "/" <= k && |k| > |root| + 1
  }

  /** A covering path is a string prefix. */
  lemma CoversIsPrefix(p: string, k: string)
    requires Covers(p, k)
    ensures p <= k
  {
    if k != p {
      assert p == (p + "/")[..|p|] == k[..|p|];
    }
  }

  /** Two paths that cover the same key cover one another in one direction. */
  lemma CoversChain(p: string, root: string, k: string)
    requires Covers(p, k) && Under(root, k)
    ensures Covers(root, p) || Covers(p, root)
  {
    CoversIsPrefix(p, k);
    assert root == k[..|root|] && k[|root|] == '/' by {
      assert (root + "/")[..|root|] == root;
      assert (root + "/")[|root|] == '/';
    }
    if |p| == |root| {
      assert p == root;
    } else if |p| < |root| {
      assert p + "/" == k[..|p| + 1] == root[..|p| + 1];
    } else {
      assert root + "/" == k[..|root| + 1] == p[..|root| + 1];
    }
  }

  // ----- path.Join and path.Clean, for rooted paths -----

  /** The components left after "", "." and ".." are resolved against the ones before. */
  function Resolve(done: seq<string>, parts: seq<string>): seq<string>
    decreases |parts|
  {
    if parts == [] then done
    else if parts[0] == "" || parts[0] == "." then Resolve(done, parts[1..])
    else if parts[0] == ".." then Resolve(if done == [] then [] else done[..|done| - 1], parts[1..])
    else Resolve(done + [parts[0]], parts[1..])
  }

  /** path.Clean of a path that starts with a slash. */
  function Clean(p: string): string
    requires "/" <= p
  {
    "/" + Join(Resolve([], Split(p[1..], '/')), '/')
  }

  /** path.Join(root, key) for a root that starts with a slash. */
  function PathJoin(root: string, key: string): string
    requires "/" <= root
  {
    if key == "" then Clean(root) else Clean(root + "/" + key)
  }

  predicate Plain(part: string)
  {
    part != "" && part != "." && part != ".."
  }

  /** A rooted path all of whose components are ordinary names: what etcd stores. */
  predicate Canonical(p: string)
  {
    "/" <= p && forall i :: 0 <= i < |Split(p[1..], '/')| ==> Plain(Split(p[1..], '/')[i])
  }

  /** Resolving keeps the plain names, and drops or pops everything else. */
  lemma {:induction false} ResolveLength(done: seq<string>, parts: seq<string>)
    ensures |Resolve(done, parts)| <= |done| + |parts|
    ensures |Resolve(done, parts)| == |done| + |parts| ==> Resolve(done, parts) == done + parts
    ensures |Resolve(done, parts)| == |done| + |parts| <==> forall i :: 0 <= i < |parts| ==> Plain(parts[i])
    decreases |parts|
  {
    if parts == [] {
      assert done + parts == done;
    } else {
      assert parts == [parts[0]] + parts[1..];
      if parts[0] == "" || parts[0] == "." {
        ResolveLength(done, parts[1..]);
      } else if parts[0] == ".." {
        ResolveLength(if done == [] then [] else done[..|done| - 1], parts[1..]);
      } else {
        ResolveLength(done + [parts[0]], parts[1..]);
        assert done + [parts[0]] + parts[1..] == done + parts;
      }
    }
  }

  /** Resolved parts come from the parts given. */
  lemma {:induction false} ResolveMembers(done: seq<string>, parts: seq<string>)
    requires forall d :: d in done ==> '/' !in d && Plain(d)
    requires forall d :: d in parts ==> '/' !in d
    ensures forall d :: d in Resolve(done, parts) ==> '/' !in d && Plain(d)
    decreases |parts|
  {
    if parts != [] {
      if parts[0] == "" || parts[0] == "." {
        ResolveMembers(done, parts[1..]);
      } else if parts[0] == ".." {
        ResolveMembers(if done == [] then [] else done[..|done| - 1], parts[1..]);
      } else {
        ResolveMembers(done + [parts[0]], parts[1..]);
      }
    }
  }

  /** Cleaning changes nothing exactly on canonical paths and on "/" itself. */
  lemma CleanFixpoint(p: string)
    requires "/" <= p
    ensures Clean(p) == p <==> Canonical(p) || p == "/"
  {
    var parts := Split(p[1..], '/');
    var kept := Resolve([], parts);
    JoinSplit(p[1..], '/');
    assert p == "/" + p[1..];
    ResolveLength([], parts);
    assert [] + parts == parts;
    if Clean(p) == p && p != "/" {
      assert Join(kept, '/') == p[1..] by {
        assert Clean(p)[1..] == Join(kept, '/');
      }
      ResolveMembers([], parts);
      SplitJoin(kept, '/');
      assert p[1..] != "" && kept != [];
      assert kept == parts;
    }
  }

  lemma {:induction false} ResolveOn(done: seq<string>, a: seq<string>, b: seq<string>)
    ensures Resolve(done, a + b) == Resolve(Resolve(done, a), b)
    decreases |a|
  {
    if a == [] {
      assert a + b == b;
    } else {
      assert (a + b)[0] == a[0] && (a + b)[1..] == a[1..] + b;
      if a[0] == "" || a[0] == "." {
        ResolveOn(done, a[1..], b);
      } else if a[0] == ".." {
        ResolveOn(if done == [] then [] else done[..|done| - 1], a[1..], b);
      } else {
        ResolveOn(done + [a[0]], a[1..], b);
      }
    }
  }

  /** Cleaning drops empty and "." components and lets ".." undo the name before it; what is left
      is clean. */
  lemma CleanSteps(p: string, name: string)
    requires "/" <= p && Plain(name) && '/' !in name
    ensures Clean(p + "/") == Clean(p) && Clean(p + "/" + ".") == Clean(p)
    ensures Clean(p + "/" + name + "/" + "..") == Clean(p)
    ensures Clean("/" + "..") == "/"
  {
    var parts := Split(p[1..], '/');
    SplitBelow(p, "");
    SplitBelow(p, ".");
    SplitBelow(p, name);
    SplitBelow(p + "/" + name, "..");
    assert p + "/" == p + "/" + "";
    ResolveOn([], parts, [""]);
    ResolveOn([], parts, ["."]);
    ResolveUndoes(Resolve([], parts), name);
    assert parts + [name] + [".."] == parts + [name, ".."];
    ResolveOn([], parts, [name, ".."]);
    RootUndone();
  }

  lemma RootUndone()
    ensures Clean("/" + "..") == "/"
  {
    assert ("/" + "..")[1..] == "..";
    SplitOne("..", '/');
    assert [".."][1..] == [];
    assert Resolve([], [".."]) == [];
  }

  lemma SplitBelow(p: string, name: string)
    requires "/" <= p && '/' !in name
    ensures Split((p + "/" + name)[1..], '/') == Split(p[1..], '/') + [name]
  {
    assert (p + "/" + name)[1..] == p[1..] + ['/'] + name;
    SplitAtSeparator(p[1..], '/', name);
    SplitOne(name, '/');
  }

  lemma {:induction false} ResolveUndoes(done: seq<string>, name: string)
    requires Plain(name)
    ensures Resolve(done, [""]) == done && Resolve(done, ["."]) == done && Resolve(done, [name, ".."]) == done
  {
    assert [name, ".."][1..] == [".."];
    assert (done + [name])[..|done|] == done;
    assert [".."][1..] == [];
    assert [""][1..] == [] && ["."][1..] == [];
  }

  /** A key below a canonical root survives the trip to the cache (the root and its slash cut
      off) and back (joined to the root) exactly when the key is canonical. */
  lemma JoinBelowRoot(root: string, k: string)
    requires "/" <= root && root + "/" <= k && Canonical(root)
    ensures PathJoin(root, k[|root| + 1..]) == k <==> Canonical(k)
  {
    var rest := k[|root| + 1..];
    assert k == root + "/" + rest;
    CleanFixpoint(root);
    CleanFixpoint(k);
    if rest == "" {
      assert PathJoin(root, rest) == root;
      SplitAtSeparator(root[1..], '/', "");
      assert k[1..] == root[1..] + ['/'] + "";
      var parts := Split(k[1..], '/');
      assert parts[|parts| - 1] == "";
    } else {
      assert k != "/";
    }
  }

  /** Below a canonical root, canonical keys are those with a canonical remainder. */
  lemma {:induction false} CanonicalBelowRoot(root: string, rest: string)
    requires Canonical(root)
    ensures Canonical(root + "/" + rest) <==> forall i :: 0 <= i < |Split(rest, '/')| ==> Plain(Split(rest, '/')[i])
  {
    var k := root + "/" + rest;
    assert k[1..] == root[1..] + ['/'] + rest;
    SplitAtSeparator(root[1..], '/', rest);
    var a, b := Split(root[1..], '/'), Split(rest, '/');
    assert forall i :: 0 <= i < |b| ==> (a + b)[|a| + i] == b[i];
  }

  lemma PlainName(name: string)
    requires '/' !in name && Plain(name)
    ensures Canonical("/" + name)
    ensures forall root :: Canonical(root) ==> Canonical(root + "/" + name)
  {
    SplitOne(name, '/');
    assert ("/" + name)[1..] == name;
    forall root | Canonical(root)
      ensures Canonical(root + "/" + name)
    {
      CanonicalBelowRoot(root, name);
    }
  }

  // ----- api/v2/utils.go -----

  /** The prefix a view watches for an application name. */
  function FixPrefix(s: string): string
  {
    if |s| == 0 then s
    else if s[|s| - 1] == '/' then s
    else s + "/"
  }

  /** A key has the fixed prefix of an application name exactly when the name is the key's
      first component and the key goes on below it: a longer name does not match. */
  lemma {:induction false} ApplicationIsolation(app: string, key: string)
    requires app != "" && '/' !in app
    ensures FixPrefix(app) <= key <==> |Split(key, '/')| > 1 && Split(key, '/')[0] == app
  {
    SplitOne(app, '/');
    if app + "/" <= key {
      var rest := key[|app| + 1..];
      assert key == app + ['/'] + rest;
      SplitAtSeparator(app, '/', rest);
    }
    var parts := Split(key, '/');
    if |parts| > 1 && parts[0] == app {
      JoinSplit(key, '/');
      assert key == app + ['/'] + Join(parts[1..], '/');
    }
  }

  /** Everything stays everything, and a prefix that ends in a slash stays as it is. */
  lemma FixPrefixKeeps(s: string)
    ensures FixPrefix(s) == s <==> s == "" || s[|s| - 1] == '/'
    ensures FixPrefix(s) != s ==> FixPrefix(s) == s + "/"
  {
  }

  /** Fixing a prefix twice is fixing it once, and an application's keys never carry the
      prefix of another application. */
  lemma FixPrefixSeparates(app: string, other: string, key: string)
    requires app != "" && '/' !in app && other != "" && '/' !in other
    requires FixPrefix(app) <= key && FixPrefix(other) <= key
    ensures app == other
    ensures FixPrefix(FixPrefix(app)) == FixPrefix(app)
  {
    ApplicationIsolation(app, key);
    ApplicationIsolation(other, key);
  }
}
