/** Full port names: what full_port_name builds, and that a name determines its port. */
module PortNames {
  import opened CalvinScript

  function FullPortName(namespace: string, actor: string, port: string): string {
    if actor != SELF then namespace + ":" + actor + "." + port else namespace + "." + port
  }

  /** The full name of the port reached by going down `path` from `namespace`. */
  function NameAt(namespace: string, path: seq<string>, port: string): string
    decreases |path|
  {
    if path == [] then namespace + "." + port
    else NameAt(namespace + ":" + path[0], path[1..], port)
  }

  function Name(namespace: string, x: Node): string { NameAt(namespace, x.path, x.port) }

  function Names(namespace: string, xs: seq<Node>): (r: seq<string>)
    ensures |r| == |xs|
    ensures forall i :: 0 <= i < |xs| ==> r[i] == Name(namespace, xs[i])
  {
    seq(|xs|, i requires 0 <= i < |xs| => Name(namespace, xs[i]))
  }

  /** A caller and the component itself name the component's port alike. */
  lemma SameNameBothSides(namespace: string, a: string, port: string)
    requires a != SELF
    ensures FullPortName(namespace, a, port) == FullPortName(namespace + ":" + a, SELF, port)
    ensures FullPortName(namespace, a, port) == Name(namespace, Node([a], In, port))
    ensures FullPortName(namespace, a, port) == Name(namespace, Node([a], Out, port))
  {
    assert [a][1..] == [];
    assert NameAt(namespace, [a], port) == NameAt(namespace + ":" + a, [], port);
  }

  lemma NameWithin(namespace: string, a: string, x: Node)
    ensures Name(namespace, Within(a, x)) == Name(namespace + ":" + a, x)
  {
    assert ([a] + x.path)[1..] == x.path;
  }

  lemma NamesWithin(namespace: string, a: string, xs: seq<Node>, ys: seq<Node>)
    requires |ys| == |xs| && forall i :: 0 <= i < |xs| ==> ys[i] == Within(a, xs[i])
    ensures Names(namespace, ys) == Names(namespace + ":" + a, xs)
  {
    forall i | 0 <= i < |xs|
      ensures Names(namespace, ys)[i] == Names(namespace + ":" + a, xs)[i]
    {
      NameWithin(namespace, a, xs[i]);
    }
  }

  // ------------------------------------------------------------ injectivity

  /** What follows the namespace: ":a:b" for the path, then "." and the port. */
  function Suffix(path: seq<string>, port: string): (r: string)
    ensures r != [] && r[0] == if path == [] then '.' else ':'
    decreases |path|
  {
    if path == [] then "." + port else ":" + path[0] + Suffix(path[1..], port)
  }

  lemma {:induction false} NameIsSuffix(namespace: string, path: seq<string>, port: string)
    ensures NameAt(namespace, path, port) == namespace + Suffix(path, port)
    decreases |path|
  {
    if path == [] {
    } else {
      NameIsSuffix(namespace + ":" + path[0], path[1..], port);
      assert namespace + ":" + path[0] + Suffix(path[1..], port)
          == namespace + (":" + path[0] + Suffix(path[1..], port));
    }
  }

  lemma NotShorter(a: string, u: string, b: string, v: string)
    requires PlainName(b) && u != [] && u[0] in ":." && a + u == b + v
    ensures |a| >= |b|
  {
    assert (a + u)[|a|] == u[0];
    forall i | 0 <= i < |b| ensures (a + u)[i] in b { assert (b + v)[i] == b[i]; }
  }

  /** Two plain names followed by something that starts with ':' or '.' split the same way. */
  lemma SplitPlain(a: string, u: string, b: string, v: string)
    requires PlainName(a) && PlainName(b) && u != [] && v != []
    requires u[0] in ":." && v[0] in ":." && a + u == b + v
    ensures a == b && u == v
  {
    NotShorter(a, u, b, v);
    NotShorter(b, v, a, u);
    assert a == (a + u)[..|a|] && b == (b + v)[..|b|];
    assert u == (a + u)[|a|..] && v == (b + v)[|b|..];
  }

  predicate PlainPath(path: seq<string>) { forall i :: 0 <= i < |path| ==> PlainName(path[i]) }

  lemma {:induction false} SuffixInjective(p: seq<string>, port: string, p': seq<string>, port': string)
    requires PlainPath(p) && PlainPath(p') && Suffix(p, port) == Suffix(p', port')
    ensures p == p' && port == port'
    decreases |p|
  {
    if p == [] {
      assert p' == [];
      assert port == ("." + port)[1..] == ("." + port')[1..] == port';
    } else {
      assert p' != [];
      var u, v := Suffix(p[1..], port), Suffix(p'[1..], port');
      assert p[0] + u == (":" + p[0] + u)[1..] == (":" + p'[0] + v)[1..] == p'[0] + v;
      SplitPlain(p[0], u, p'[0], v);
      SuffixInjective(p[1..], port, p'[1..], port');
      assert p == [p[0]] + p[1..] && p' == [p'[0]] + p'[1..];
    }
  }

  /** Identifiers contain neither ':' nor '.', so a full name determines the port. */
  lemma NameInjective(namespace: string, x: Node, y: Node)
    requires PlainPath(x.path) && PlainPath(y.path) && Name(namespace, x) == Name(namespace, y)
    ensures x.path == y.path && x.port == y.port
  {
    NameIsSuffix(namespace, x.path, x.port);
    NameIsSuffix(namespace, y.path, y.port);
    var u, v := Suffix(x.path, x.port), Suffix(y.path, y.port);
    assert u == (namespace + u)[|namespace|..] == (namespace + v)[|namespace|..] == v;
    SuffixInjective(x.path, x.port, y.path, y.port);
  }
}
