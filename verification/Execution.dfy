/**
 What is run and what is digested: internal/execution/executor.go and `digestRequest` of
 internal/broker/service.go.
 */
module Execution {
  import opened Core
  import opened Text

  // ----- The environment list -----

  function Entries(keys: seq<string>, env: map<string, string>): (r: seq<string>)
    requires forall k :: k in keys ==> k in env
    ensures |r| == |keys|
    ensures forall i :: 0 <= i < |keys| ==> r[i] == keys[i] + "=" + env[keys[i]]
  {
    if keys == [] then [] else
      Entries(keys[..|keys| - 1], env) + [keys[|keys| - 1] + "=" + env[keys[|keys| - 1]]]
  }

  /** The "key=value" list of an environment, in the order of its sorted keys. */
  ghost function EnvList(env: map<string, string>): seq<string> {
    SortedKeysExact(env.Keys);
    Entries(SortedKeys(env.Keys), env)
  }

  /** `envSlice`, whatever order the map is walked in. */
  method EnvSlice(env: map<string, string>) returns (out: seq<string>)
    ensures out == EnvList(env)
  {
    var keys := CollectSorted(env.Keys);
    SortedKeysExact(env.Keys);
    out := [];
    for i := 0 to |keys|
      invariant out == Entries(keys[..i], env)
    {
      assert keys[..i + 1][..i] == keys[..i];
      out := out + [keys[i] + "=" + env[keys[i]]];
    }
    assert keys[..|keys|] == keys;
  }

  /** The list holds "key=value" once for each key, in the byte order of the keys. */
  lemma EnvListExact(env: map<string, string>) returns (keys: seq<string>)
    ensures |keys| == |EnvList(env)| == |env| && (forall k :: k in keys <==> k in env)
    ensures forall i :: 0 <= i < |keys| ==> EnvList(env)[i] == keys[i] + "=" + env[keys[i]]
    ensures forall i, j :: 0 <= i < j < |keys| ==>
              keys[i] != keys[j] && (keys[i] <= keys[j] || exists n :: DiffersBelow(keys[i], keys[j], n))
  {
    keys := SortedKeys(env.Keys);
    SortedKeysExact(env.Keys);
    SortSorts(Enumerate(env.Keys));
    assert |env| == |env.Keys|;
    forall i, j | 0 <= i < j < |keys|
      ensures keys[i] <= keys[j] || exists n :: DiffersBelow(keys[i], keys[j], n)
    {
      LexOrder(keys[i], keys[j]);
    }
  }

  /** "k=v" splits at its first '=' when the key has none. */
  lemma {:induction false} EntrySplits(k: string, v: string, k': string, v': string)
    requires '=' !in k && '=' !in k' && k + "=" + v == k' + "=" + v'
    ensures k == k' && v == v'
  {
    var s, s' := k + "=" + v, k' + "=" + v';
    assert s[|k|] == '=' && s'[|k'|] == '=';
    assert forall i :: 0 <= i < |k| ==> s[i] == k[i];
    assert forall i :: 0 <= i < |k'| ==> s'[i] == k'[i];
    assert |k| == |k'|;
    assert k == s[..|k|] && k' == s'[..|k'|] && v == s[|k| + 1..] && v' == s'[|k'| + 1..];
  }

  lemma EntryListed(env: map<string, string>, k: string)
    ensures k in env ==> k + "=" + env[k] in EnvList(env)
  {
    SortedKeysExact(env.Keys);
    if k in env {
      var i :| 0 <= i < |SortedKeys(env.Keys)| && SortedKeys(env.Keys)[i] == k;
      assert EnvList(env)[i] == k + "=" + env[k];
    }
  }

  ghost predicate PlainKeys(env: map<string, string>) {
    forall k :: k in env ==> '=' !in k
  }

  lemma EnvListIncludes(a: map<string, string>, b: map<string, string>, k: string)
    requires PlainKeys(a) && PlainKeys(b) && EnvList(a) == EnvList(b) && k in a
    ensures k in b && b[k] == a[k]
  {
    SortedKeysExact(b.Keys);
    EntryListed(a, k);
    var ks := SortedKeys(b.Keys);
    var i :| 0 <= i < |ks| && EnvList(b)[i] == k + "=" + a[k];
    EntrySplits(k, a[k], ks[i], b[ks[i]]);
  }

  /** With no '=' in the keys, the list determines the environment. */
  lemma EnvListInjective(a: map<string, string>, b: map<string, string>)
    requires PlainKeys(a) && PlainKeys(b)
    ensures EnvList(a) == EnvList(b) <==> a == b
  {
    if EnvList(a) == EnvList(b) {
      EnvListIncludesAll(a, b);
      EnvListIncludesAll(b, a);
      assert a.Keys == b.Keys;
    }
  }

  lemma EnvListIncludesAll(a: map<string, string>, b: map<string, string>)
    requires PlainKeys(a) && PlainKeys(b) && EnvList(a) == EnvList(b)
    ensures a.Keys <= b.Keys && forall k :: k in a.Keys ==> b[k] == a[k]
  {
    forall k | k in a.Keys ensures k in b.Keys && b[k] == a[k] {
      EnvListIncludes(a, b, k);
    }
  }

  /** The restriction is needed: an '=' in a key makes two environments indistinguishable. */
  lemma EqualsSignCollides()
    ensures map["a=b" := "c"] != map["a" := "b=c"] && EnvList(map["a=b" := "c"]) == EnvList(map["a" := "b=c"])
  {
    var a, b := map["a=b" := "c"], map["a" := "b=c"];
    SortedKeysExact(a.Keys);
    SortedKeysExact(b.Keys);
    assert a.Keys == {"a=b"} && b.Keys == {"a"};
    assert SortedKeys(a.Keys)[0] in a.Keys && SortedKeys(b.Keys)[0] in b.Keys;
    assert EnvList(a)[0] == "a=b" + "=" + "c" == "a" + "=" + "b=c" == EnvList(b)[0];
    assert "a=b" in a.Keys && "a" !in {"a=b"};
  }

  // ----- The working directory -----

  predicate SlashFree(parts: seq<string>) {
    forall i :: 0 <= i < |parts| ==> '/' !in parts[i]
  }

  function Split(path: string): (parts: seq<string>)
    ensures |parts| >= 1
    ensures SlashFree(parts)
  {
    if path == "" then [""]
    else if path[0] == '/' then [""] + Split(path[1..])
    else
      var rest := Split(path[1..]);
      [[path[0]] + rest[0]] + rest[1..]
  }

  /** A path element that `filepath.Clean` keeps. */
  predicate Proper(part: string) {
    part != "" && part != "." && part != ".." && '/' !in part
  }

  predicate AllProper(stack: seq<string>) {
    forall i :: 0 <= i < |stack| ==> Proper(stack[i])
  }

  /** The elements left after dropping "" and "." and letting ".." remove what precedes it. */
  function Walk(parts: seq<string>, stack: seq<string>): (r: seq<string>)
    requires SlashFree(parts) && AllProper(stack)
    ensures AllProper(r)
    decreases |parts|
  {
    if parts == [] then stack
    else if parts[0] == "" || parts[0] == "." then Walk(parts[1..], stack)
    else if parts[0] == ".." then Walk(parts[1..], if stack == [] then [] else stack[..|stack| - 1])
    else Walk(parts[1..], stack + [parts[0]])
  }

  function Render(stack: seq<string>): string {
    if stack == [] then "" else "/" + stack[0] + Render(stack[1..])
  }

  predicate IsAbs(path: string) {
    path != "" && path[0] == '/'
  }

  /** Where an absolute path leads. */
  function Resolve(path: string): (stack: seq<string>)
    ensures AllProper(stack)
  {
    Walk(Split(path), [])
  }

  /** The shortest absolute path to a place. */
  function PathTo(stack: seq<string>): (r: string)
    ensures IsAbs(r)
  {
    if stack == [] then "/" else Render(stack)
  }

  /** `filepath.Clean` on a rooted path. */
  function Clean(path: string): (r: string)
    requires IsAbs(path)
    ensures IsAbs(r)
  {
    PathTo(Resolve(path))
  }

  function NormalizeCwd(cwd: string): (r: string)
    ensures IsAbs(r)
  {
    if cwd == "" then "/"
    else if !IsAbs(cwd) then "/"
    else if TrimSpace(Clean(cwd)) == "" then "/"
    else Clean(cwd)
  }

  lemma {:induction false} SplitElement(part: string, rest: string)
    requires '/' !in part && (rest == "" || rest[0] == '/')
    ensures Split(part + rest) == [part] + Split(rest)[1..]
  {
    if part == "" {
      assert part + rest == rest;
      assert Split(rest) == [Split(rest)[0]] + Split(rest)[1..];
    } else {
      SplitElement(part[1..], rest);
      assert (part + rest)[1..] == part[1..] + rest;
      assert [part[0]] + part[1..] == part;
    }
  }

  lemma {:induction false} SplitRendered(stack: seq<string>)
    requires AllProper(stack)
    ensures Split(Render(stack)) == [""] + stack
  {
    if stack != [] {
      var rest := Render(stack[1..]);
      SplitRendered(stack[1..]);
      SplitElement(stack[0], rest);
      SplitRoot(stack[0] + rest);
      assert "/" + stack[0] + rest == "/" + (stack[0] + rest);
      assert ([""] + stack[1..])[1..] == stack[1..];
      assert [stack[0]] + stack[1..] == stack;
    }
  }

  lemma SplitRoot(rest: string)
    ensures Split("/" + rest) == [""] + Split(rest)
  {
    assert ("/" + rest)[1..] == rest;
  }

  lemma {:induction false} WalkKeepsProper(parts: seq<string>, stack: seq<string>)
    requires AllProper(parts) && AllProper(stack)
    ensures Walk(parts, stack) == stack + parts
  {
    if parts != [] {
      WalkKeepsProper(parts[1..], stack + [parts[0]]);
      assert stack + [parts[0]] + parts[1..] == stack + parts;
    }
  }

  lemma RootResolves()
    ensures Resolve("/") == []
  {
    SplitRoot("");
    assert "/" + "" == "/" && [""] + [""] == ["", ""];
    assert Split("/") == ["", ""];
    assert ["", ""][1..] == [""] && [""][1..] == [];
    assert Walk([""], []) == Walk([], []) == [];
  }

  lemma RenderedResolves(stack: seq<string>)
    requires AllProper(stack)
    ensures Resolve(Render(stack)) == stack
  {
    SplitRendered(stack);
    WalkKeepsProper(stack, []);
    assert ([""] + stack)[1..] == stack && [] + stack == stack;
    assert Walk([""] + stack, []) == Walk(stack, []);
  }

  lemma PathLeadsThere(stack: seq<string>)
    requires AllProper(stack)
    ensures Resolve(PathTo(stack)) == stack
  {
    if stack == [] {
      RootResolves();
    } else {
      RenderedResolves(stack);
    }
  }

  // How long a path has to be: each element needs its own text and a slash.

  function Span(parts: seq<string>): nat {
    if parts == [] then 0 else |parts[0]| + 1 + Span(parts[1..])
  }

  lemma {:induction false} SpanSnoc(parts: seq<string>, part: string)
    ensures Span(parts + [part]) == Span(parts) + |part| + 1
  {
    if parts == [] {
      assert parts + [part] == [part] && [part][1..] == [];
    } else {
      assert (parts + [part])[1..] == parts[1..] + [part];
      SpanSnoc(parts[1..], part);
    }
  }

  lemma {:induction false} SplitSpans(path: string)
    ensures Span(Split(path)) == |path| + 1
  {
    if path == "" {
      assert [""][1..] == [];
    } else {
      var rest := Split(path[1..]);
      SplitSpans(path[1..]);
      if path[0] == '/' {
        assert ([""] + rest)[1..] == rest;
      } else {
        assert ([[path[0]] + rest[0]] + rest[1..])[1..] == rest[1..];
      }
    }
  }

  lemma {:induction false} RenderSpans(stack: seq<string>)
    ensures |Render(stack)| == Span(stack)
  {
    if stack != [] {
      RenderSpans(stack[1..]);
    }
  }

  lemma {:induction false} WalkShrinks(parts: seq<string>, stack: seq<string>)
    requires SlashFree(parts) && AllProper(stack)
    ensures Span(Walk(parts, stack)) <= Span(stack) + Span(parts)
    decreases |parts|
  {
    if parts != [] {
      if parts[0] == "" || parts[0] == "." {
        WalkShrinks(parts[1..], stack);
      } else if parts[0] == ".." {
        var up := if stack == [] then [] else stack[..|stack| - 1];
        WalkShrinks(parts[1..], up);
        if stack != [] {
          SpanSnoc(up, stack[|stack| - 1]);
          assert stack == up + [stack[|stack| - 1]];
        }
      } else {
        WalkShrinks(parts[1..], stack + [parts[0]]);
        SpanSnoc(stack, parts[0]);
      }
    }
  }

  /** No absolute path to the same place is shorter. */
  lemma PathIsShortest(path: string)
    requires IsAbs(path)
    ensures |PathTo(Resolve(path))| <= |path|
  {
    SplitRoot(path[1..]);
    assert path == "/" + path[1..];
    var parts := Split(path[1..]);
    assert ([""] + parts)[1..] == parts;
    assert Resolve(path) == Walk(parts, []);
    SplitSpans(path[1..]);
    WalkShrinks(parts, []);
    RenderSpans(Resolve(path));
  }

  lemma NormalizeIsClean(cwd: string)
    ensures NormalizeCwd(cwd) == if IsAbs(cwd) then PathTo(Resolve(cwd)) else PathTo([])
  {
    if IsAbs(cwd) {
      assert !IsSpace('/');
      assert TrimLeft(Clean(cwd)) == Clean(cwd);
    }
  }

  /** An absolute directory is replaced by the shortest way of writing the same place, anything else by "/". */
  lemma NormalizeKeepsThePlace(cwd: string)
    ensures Resolve(NormalizeCwd(cwd)) == if IsAbs(cwd) then Resolve(cwd) else []
    ensures NormalizeCwd(cwd) == PathTo(Resolve(NormalizeCwd(cwd)))
    ensures forall path :: IsAbs(path) && Resolve(path) == Resolve(NormalizeCwd(cwd)) ==> |NormalizeCwd(cwd)| <= |path|
  {
    NormalizeIsClean(cwd);
    PathLeadsThere(if IsAbs(cwd) then Resolve(cwd) else []);
    forall path | IsAbs(path) && Resolve(path) == Resolve(NormalizeCwd(cwd)) ensures |NormalizeCwd(cwd)| <= |path| {
      PathIsShortest(path);
    }
  }

  lemma NormalizeIdempotent(cwd: string)
    ensures NormalizeCwd(NormalizeCwd(cwd)) == NormalizeCwd(cwd)
  {
    NormalizeKeepsThePlace(cwd);
    NormalizeIsClean(NormalizeCwd(cwd));
  }

  // ----- What normalizing does, element by element -----

  lemma SplitCons(c: char, rest: string)
    ensures Split([c] + rest) == if c == '/' then [""] + Split(rest) else [[c] + Split(rest)[0]] + Split(rest)[1..]
  {
    assert ([c] + rest)[1..] == rest;
  }

  lemma ConsOfJoin(c: char, xs: seq<string>, ys: seq<string>)
    requires xs != []
    ensures [""] + (xs + ys) == ([""] + xs) + ys
    ensures [[c] + (xs + ys)[0]] + (xs + ys)[1..] == ([[c] + xs[0]] + xs[1..]) + ys
  {
    assert (xs + ys)[1..] == xs[1..] + ys;
  }

  lemma {:induction false} SplitJoin(a: string, b: string)
    ensures Split(a + "/" + b) == Split(a) + Split(b)
  {
    if a == "" {
      assert a + "/" + b == "/" + b;
      SplitRoot(b);
    } else {
      SplitJoin(a[1..], b);
      assert a == [a[0]] + a[1..] && a + "/" + b == [a[0]] + (a[1..] + "/" + b);
      SplitCons(a[0], a[1..] + "/" + b);
      SplitCons(a[0], a[1..]);
      ConsOfJoin(a[0], Split(a[1..]), Split(b));
    }
  }

  lemma SplitPlain(part: string)
    requires '/' !in part
    ensures Split(part) == [part]
  {
    SplitElement(part, "");
    assert part + "" == part && Split("")[1..] == [];
  }

  lemma {:induction false} WalkAppend(a: seq<string>, b: seq<string>, stack: seq<string>)
    requires SlashFree(a) && SlashFree(b) && AllProper(stack)
    ensures SlashFree(a + b) && Walk(a + b, stack) == Walk(b, Walk(a, stack))
    decreases |a|
  {
    if a == [] {
      assert a + b == b;
    } else {
      assert (a + b)[1..] == a[1..] + b;
      var stack' := if a[0] == "" || a[0] == "." then stack
                    else if a[0] == ".." then (if stack == [] then [] else stack[..|stack| - 1])
                    else stack + [a[0]];
      WalkAppend(a[1..], b, stack');
    }
  }

  /** Where one more element leads, by what it is. */
  lemma ResolveNext(p: string, part: string)
    requires '/' !in part
    ensures part == "" || part == "." ==> Resolve(p + "/" + part) == Resolve(p)
    ensures part == ".." ==> Resolve(p + "/" + part) == if Resolve(p) == [] then [] else Resolve(p)[..|Resolve(p)| - 1]
    ensures Proper(part) ==> Resolve(p + "/" + part) == Resolve(p) + [part]
  {
    SplitJoin(p, part);
    SplitPlain(part);
    WalkAppend(Split(p), [part], []);
    assert [part][1..] == [];
  }

  /** What follows a path depends only on where the path leads. */
  lemma ResolveFrom(p: string, q: string, rest: string)
    requires Resolve(p) == Resolve(q)
    ensures Resolve(p + "/" + rest) == Resolve(q + "/" + rest)
  {
    SplitJoin(p, rest);
    SplitJoin(q, rest);
    WalkAppend(Split(p), Split(rest), []);
    WalkAppend(Split(q), Split(rest), []);
  }

  lemma {:induction false} RenderSnoc(stack: seq<string>, e: string)
    ensures Render(stack + [e]) == Render(stack) + "/" + e
  {
    if stack == [] {
      assert [] + [e] == [e] && [e][1..] == [];
      assert "/" + e + "" == "" + "/" + e;
    } else {
      assert (stack + [e])[1..] == stack[1..] + [e];
      RenderSnoc(stack[1..], e);
      assert "/" + stack[0] + (Render(stack[1..]) + "/" + e) == "/" + stack[0] + Render(stack[1..]) + "/" + e;
    }
  }

  // The rules of `filepath.Clean` for rooted paths, on the normalized directory itself. Together they say
  // what it is for every absolute path: any such path is the root, or a shorter one and one more element.

  /** "" and "." change nothing. */
  lemma NormalizeDot(p: string, part: string)
    requires IsAbs(p) && (part == "" || part == ".")
    ensures NormalizeCwd(p + "/" + part) == NormalizeCwd(p)
  {
    ResolveNext(p, part);
    NormalizeIsClean(p);
    NormalizeIsClean(p + "/" + part);
  }

  /** ".." takes away the element before it. */
  lemma NormalizeUp(p: string, e: string)
    requires IsAbs(p) && Proper(e)
    ensures NormalizeCwd(p + "/" + e + "/..") == NormalizeCwd(p)
  {
    var q := p + "/" + e;
    ResolveNext(p, e);
    ResolveNext(q, "..");
    assert q + "/" + ".." == q + "/..";
    assert (Resolve(p) + [e])[..|Resolve(p)|] == Resolve(p);
    NormalizeIsClean(p);
    NormalizeIsClean(q + "/..");
  }

  /** The root is itself, and nothing lies above it. */
  lemma NormalizeRoot()
    ensures NormalizeCwd("/") == "/" && NormalizeCwd("/..") == "/"
  {
    RootResolves();
    NormalizeIsClean("/");
    ResolveNext("", "..");
    assert "" + "/" + ".." == "/..";
    assert Split("") == [""] && [""][1..] == [];
    NormalizeIsClean("/..");
  }

  /** Any other element is appended. */
  lemma NormalizeElement(p: string, e: string)
    requires IsAbs(p) && Proper(e)
    ensures NormalizeCwd(p + "/" + e) == (if NormalizeCwd(p) == "/" then "" else NormalizeCwd(p)) + "/" + e
  {
    ResolveNext(p, e);
    NormalizeIsClean(p);
    NormalizeIsClean(p + "/" + e);
    RenderSnoc(Resolve(p), e);
    if Resolve(p) != [] {
      assert |Render(Resolve(p))| > 1;
    }
  }

  /** What a path begins with may be normalized first. */
  lemma NormalizePrefixFirst(p: string, rest: string)
    requires IsAbs(p)
    ensures NormalizeCwd(p + "/" + rest) == NormalizeCwd(NormalizeCwd(p) + "/" + rest)
  {
    NormalizeKeepsThePlace(p);
    ResolveFrom(p, NormalizeCwd(p), rest);
    NormalizeIsClean(p + "/" + rest);
    NormalizeIsClean(NormalizeCwd(p) + "/" + rest);
  }

  /** A directory that is not absolute, or not given, becomes the root. */
  lemma NormalizeOthers(cwd: string)
    requires cwd == "" || cwd[0] != '/'
    ensures NormalizeCwd(cwd) == "/"
  {
  }

  // ----- The command -----

  const SANITIZED_ENV: map<string, string> :=
    map["PATH" := "/usr/sbin:/usr/bin:/sbin:/bin", "LANG" := "C", "LC_ALL" := "C"]

  function BuildExecutionSpec(argv: seq<string>, cwd: string): ExecutionSpec {
    ExecutionSpec(argv, SANITIZED_ENV, NormalizeCwd(cwd))
  }

  datatype Command = Command(argv: seq<string>, dir: string, env: seq<string>)

  /** The command the executor starts for a request; an empty argv is its own error. */
  ghost function CommandOf(request: Request): Option<Command> {
    if request.spec.argv == [] then None
    else Some(Command(request.spec.argv, NormalizeCwd(request.spec.cwd), EnvList(request.spec.env)))
  }

  /** The choice of argv, directory and environment at the head of `LocalExecutor.Execute`. */
  method Prepare(request: Request) returns (c: Option<Command>)
    ensures c == CommandOf(request)
    ensures c.Some? <==> request.spec.argv != []
    ensures c.Some? ==> c.value == Command(request.spec.argv, NormalizeCwd(request.spec.cwd), EnvList(request.spec.env))
  {
    if |request.spec.argv| == 0 {
      return None;
    }
    var env := EnvSlice(request.spec.env);
    assert [request.spec.argv[0]] + request.spec.argv[1..] == request.spec.argv;
    c := Some(Command([request.spec.argv[0]] + request.spec.argv[1..], NormalizeCwd(request.spec.cwd), env));
  }

  // ----- The digest -----

  ghost function DigestOf(requestId: string, spec: ExecutionSpec, requester: PeerIdentity, expiry: int): Digest {
    Digest(spec.argv, EnvList(spec.env), spec.cwd, requester.uid, requestId, expiry)
  }

  /** `digestRequest`; the environment is listed a second time here, by a loop of its own. */
  method DigestRequest(requestId: string, spec: ExecutionSpec, requester: PeerIdentity, expiry: int)
    returns (d: Digest)
    ensures d == DigestOf(requestId, spec, requester, expiry)
  {
    var envKeys := CollectSorted(spec.env.Keys);
    SortedKeysExact(spec.env.Keys);
    var env := [];
    for i := 0 to |envKeys|
      invariant env == Entries(envKeys[..i], spec.env)
    {
      assert envKeys[..i + 1][..i] == envKeys[..i];
      env := env + [envKeys[i] + "=" + spec.env[envKeys[i]]];
    }
    assert envKeys[..|envKeys|] == envKeys;
    d := Digest(spec.argv, env, spec.cwd, requester.uid, requestId, expiry);
  }

  /** Equal digests mean equal command, environment, directory, requester, request and expiry. */
  lemma DigestInjective(id: string, spec: ExecutionSpec, who: PeerIdentity, expiry: int,
                        id': string, spec': ExecutionSpec, who': PeerIdentity, expiry': int)
    requires PlainKeys(spec.env) && PlainKeys(spec'.env)
    ensures DigestOf(id, spec, who, expiry) == DigestOf(id', spec', who', expiry') <==>
            id == id' && spec == spec' && who.uid == who'.uid && expiry == expiry'
  {
    EnvListInjective(spec.env, spec'.env);
  }

  /** The environment the broker fixes has plain keys, so the digests it writes are injective. */
  lemma SpecDigestInjective(id: string, argv: seq<string>, cwd: string, who: PeerIdentity, expiry: int,
                            id': string, argv': seq<string>, cwd': string, who': PeerIdentity, expiry': int)
    ensures DigestOf(id, BuildExecutionSpec(argv, cwd), who, expiry) == DigestOf(id', BuildExecutionSpec(argv', cwd'), who', expiry')
            <==> id == id' && argv == argv' && NormalizeCwd(cwd) == NormalizeCwd(cwd') && who.uid == who'.uid && expiry == expiry'
  {
    SanitizedKeysArePlain();
    DigestInjective(id, BuildExecutionSpec(argv, cwd), who, expiry, id', BuildExecutionSpec(argv', cwd'), who', expiry');
  }

  lemma SanitizedKeysArePlain()
    ensures PlainKeys(SANITIZED_ENV)
  {
  }

  /** The digest covers the very argv, environment list and directory the executor will use. */
  ghost predicate DigestCoversCommand(request: Request) {
    && CommandOf(request).Some?
    && var c := CommandOf(request).value;
       request.digest == Digest(c.argv, c.env, c.dir, request.requester.uid, request.id, request.expiresAt)
  }

  lemma NormalSpecIsCovered(request: Request)
    requires request.spec.argv != [] && NormalizeCwd(request.spec.cwd) == request.spec.cwd
    requires request.digest == DigestOf(request.id, request.spec, request.requester, request.expiresAt)
    ensures DigestCoversCommand(request)
  {
  }
}
