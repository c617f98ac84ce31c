/** Service paths: the string tests of servicePathMatch implement containment in a hierarchy of paths. */
module ServicePath {

  /** The cases in which servicePathMatch reads only inside its strings: it looks at the last and the last
      but one character of the path of the subscription unless one of its special cases applies. */
  predicate ReadsInside(sub: string, req: string) {
    req == "/#" || (req == "" && sub == "") || (sub != "" && sub != "#")
  }

  /** servicePathMatch(cSubP, servicePath), with `sub` the path of the subscription. */
  function ServicePathMatch(sub: string, req: string): bool
    requires ReadsInside(sub, req)
  {
    if req == "/#" then true
    else if req == "" && sub == "" then true
    else
      var path := if req == "" then "/" else req;
      if sub[|sub| - 1] != '#' then path == sub
      else
        var len := |sub| - 2;
        if sub[len] == '/' && |path| == len && sub[..len] <= path then true
        else sub[..|sub| - 1] <= path
  }

  // ---- paths as lists of components ----

  /** The pieces between the slashes. */
  function Split(s: string): (r: seq<string>)
    ensures r != []
  {
    if s == "" then [""]
    else if s[0] == '/' then [""] + Split(s[1..])
    else var r := Split(s[1..]); [[s[0]] + r[0]] + r[1..]
  }

  /** "/a/b" has the components a and b; the root "" of the hierarchy has none. */
  function Components(path: string): seq<string>
    requires path == "" || path[0] == '/'
  {
    if path == "" then [] else Split(path[1..])
  }

  lemma SplitSlash(y: string)
    ensures Split(y)[0] == "" <==> y == "" || y[0] == '/'
    ensures y != "" && y[0] == '/' ==> Split(y) == [""] + Split(y[1..])
    ensures y == "" ==> Split(y) == [""]
    ensures y != "" && y[0] != '/' ==> Split(y)[0][0] == y[0] && Split(y[1..]) == [Split(y)[0][1..]] + Split(y)[1..]
  {
  }

  lemma PrefixCons(c: char, h: string, t: seq<string>, h': string, t': seq<string>)
    ensures [[c] + h] + t <= [[c] + h'] + t' <==> [h] + t <= [h'] + t'
  {
    assert [c] + h == [c] + h' <==> h == h' by {
      assert ([c] + h)[1..] == h && ([c] + h')[1..] == h';
    }
    assert ([[c] + h] + t)[1..] == t && ([[c] + h'] + t')[1..] == t';
    assert ([h] + t)[1..] == t && ([h'] + t')[1..] == t';
    PrefixHead([c] + h, t, [c] + h', t');
    PrefixHead(h, t, h', t');
  }

  lemma PrefixHead<T>(h: T, t: seq<T>, h': T, t': seq<T>)
    ensures [h] + t <= [h'] + t' <==> h == h' && t <= t'
  {
    var a, b := [h] + t, [h'] + t';
    if h == h' && t <= t' {
      assert forall i :: 0 <= i < |a| ==> a[i] == b[i];
    } else if a <= b {
      assert a[0] == b[0];
      assert forall i :: 0 <= i < |t| ==> t[i] == a[i + 1] && t'[i] == b[i + 1];
    }
  }

  /** The component list of `x` is a prefix of that of `y` exactly when `y` is `x` or lies below `x`. */
  lemma {:induction false} SplitPrefix(x: string, y: string)
    ensures Split(x) <= Split(y) <==> x == y || x + "/" <= y
  {
    SplitSlash(x);
    SplitSlash(y);
    if x == "" {
      PrefixHead("", [], Split(y)[0], Split(y)[1..]);
      assert [Split(y)[0]] + Split(y)[1..] == Split(y) && [""] + [] == Split(x);
      assert "" + "/" == "/";
    } else if y == "" {
      PrefixHead(Split(x)[0], Split(x)[1..], "", []);
      assert [Split(x)[0]] + Split(x)[1..] == Split(x) && [""] + [] == Split(y);
    } else {
      var x', y' := x[1..], y[1..];
      SplitPrefix(x', y');
      assert x == [x[0]] + x' && y == [y[0]] + y' && x + "/" == [x[0]] + (x' + "/");
      PrefixHead(x[0], x' + "/", y[0], y');
      if x[0] == '/' && y[0] == '/' {
        PrefixHead("", Split(x'), "", Split(y'));
      } else if x[0] == y[0] {
        PrefixCons(x[0], Split(x')[0], Split(x')[1..], Split(y')[0], Split(y')[1..]);
        assert Split(x') == [Split(x')[0]] + Split(x')[1..] && Split(y') == [Split(y')[0]] + Split(y')[1..];
      } else {
        assert Split(x)[0] != Split(y)[0];
      }
    }
  }

  lemma ComponentsPrefix(base: string, path: string)
    requires base == "" || base[0] == '/'
    requires path != "" && path[0] == '/'
    ensures Components(base) <= Components(path) <==> base == path || base + "/" <= path
  {
    if base == "" {
      assert base + "/" == "/";
    } else {
      SplitPrefix(base[1..], path[1..]);
      var b, p := base[1..], path[1..];
      assert base == ['/'] + b && path == ['/'] + p && base + "/" == ['/'] + (b + "/");
      PrefixHead('/', b + "/", '/', p);
    }
  }

  predicate EndsWithWildcard(sub: string) {
    |sub| >= 2 && sub[|sub| - 1] == '#' && sub[|sub| - 2] == '/'
  }

  /** For subscription paths starting with '/': a path "base/#" matches exactly the request paths whose component
      list starts with the components of base, a path ending in '#' after anything but '/' matches by plain
      string prefix, and any other path matches on equality. The empty request path stands for "/", and the
      request "/#" matches everything. */
  lemma MatchMeaning(sub: string, req: string)
    requires sub != "" && sub[0] == '/'
    ensures req == "/#" ==> ServicePathMatch(sub, req)
    ensures req != "/#" ==>
      var path := if req == "" then "/" else req;
      ServicePathMatch(sub, req) <==>
        if EndsWithWildcard(sub) then path[0] == '/' && Components(sub[..|sub| - 2]) <= Components(path)
        else if sub[|sub| - 1] == '#' then sub[..|sub| - 1] <= path
        else path == sub
  {
    if req != "/#" && EndsWithWildcard(sub) {
      var path := if req == "" then "/" else req;
      var base := sub[..|sub| - 2];
      assert base != "" ==> base[0] == sub[0];
      assert sub[..|sub| - 1] == base + "/";
      if path[0] == '/' {
        ComponentsPrefix(base, path);
      } else {
        assert (base + "/")[0] == '/';
        assert forall s: string :: s != "" && s <= path ==> s[0] == path[0];
        assert base <= path && |path| == |base| ==> path == base;
      }
    }
  }

  /** "/a/b/#" matches "/a/b" and what lies below it, but not "/a/b2". */
  lemma MatchExamples(below: string)
    ensures ServicePathMatch("/a/b/#", "/a/b")
    ensures ServicePathMatch("/a/b/#", "/a/b/" + below)
    ensures !ServicePathMatch("/a/b/#", "/a/b2")
  {
    assert "/a/b/#"[..4] == "/a/b" && "/a/b/#"[..5] == "/a/b/";
    assert "/a/b2"[4] != "/a/b/"[4];
  }
}
