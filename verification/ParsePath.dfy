/** Path resolution (kernel.c, parse_path).  The loop works on the text that is left; what it computes is said in terms
    of the list of components that are left.  What file systems answer and what is mounted may change between any
    two questions. */
module ParsePath {

  const MAX_SYM_LINKS := 16

  type Vn = nat

  datatype Option<T> = None | Some(value: T)

  /** The answer of a file system's walk: an error, a vnode with a reference for the caller, or a link's target. */
  datatype Walk = Failed(err: int) | Reached(vn: Vn) | Link(target: string)

  datatype Result = Found(vn: Vn) | Error(err: int) | Loop

  /** The surroundings, question by question: walk (with the component, and whether it may give a link instead of
      following it), the vnode a root is mounted on, the root mounted on a vnode, and the root of all. */
  datatype Env = Env(walk: (nat, Vn, string, bool) -> Walk, mountPoint: (nat, Vn) -> Option<Vn>,
                     mountedRoot: (nat, Vn) -> Option<Vn>, root: Vn)

  // ---- components

  /** The first '/' after the first character, or the end. */
  function ComponentEnd(p: string, i: nat): (e: nat)
    requires 0 < i <= |p|
    ensures i <= e <= |p| && (e < |p| ==> p[e] == '/')
    ensures forall k :: i <= k < e ==> p[k] != '/'
    decreases |p| - i
  {
    if i == |p| || p[i] == '/' then i else ComponentEnd(p, i + 1)
  }

  function SkipSlashes(p: string): (r: string)
    ensures |r| <= |p| && (r != "" ==> r[0] != '/')
  {
    if p != "" && p[0] == '/' then SkipSlashes(p[1..]) else p
  }

  function Components(p: string): seq<string>
    decreases |p|
  {
    if p == "" then []
    else [p[..ComponentEnd(p, 1)]] + Components(SkipSlashes(p[ComponentEnd(p, 1)..]))
  }

  /** Does p go on with something other than a slash, or end? */
  predicate Ready(p: string) {
    p == "" || p[0] != '/'
  }

  lemma {:induction false} SkipJoin(a: string, b: string)
    requires Ready(b)
    ensures SkipSlashes(a + "/" + b) == if SkipSlashes(a) == "" then b else SkipSlashes(a) + "/" + b
  {
    var p := a + "/" + b;
    if a == "" {
      assert p[1..] == b;
    } else if a[0] == '/' {
      SkipJoin(a[1..], b);
      assert p[1..] == a[1..] + "/" + b;
    }
  }

  lemma {:induction false} EndJoin(a: string, b: string, i: nat)
    requires 0 < i <= |a|
    ensures ComponentEnd(a + "/" + b, i) == ComponentEnd(a, i)
    decreases |a| - i
  {
    var p := a + "/" + b;
    assert i < |a| ==> p[i] == a[i];
    if i == |a| {
      assert p[i] == '/';
    } else if a[i] != '/' {
      EndJoin(a, b, i + 1);
    }
  }

  lemma Unfold(p: string)
    requires p != ""
    ensures Components(p) == [p[..ComponentEnd(p, 1)]] + Components(SkipSlashes(p[ComponentEnd(p, 1)..]))
  {
  }

  /** Putting a link's target before the rest of the path puts its components before the rest's. */
  lemma {:induction false} JoinComponents(a: string, b: string)
    requires a != "" && Ready(b)
    ensures Components(a + "/" + b) == Components(a) + Components(b)
    decreases |a|
  {
    hide Components, SkipSlashes, ComponentEnd;
    var p := a + "/" + b;
    var e := ComponentEnd(a, 1);
    EndJoin(a, b, 1);
    Unfold(p);
    Unfold(a);
    assert p[..e] == a[..e];
    assert p[e..] == a[e..] + "/" + b;
    SkipJoin(a[e..], b);
    var rest := SkipSlashes(a[e..]);
    if rest == "" {
      Empty();
      assert [a[..e]] + Components(b) == Components(a) + Components(b);
    } else {
      JoinComponents(rest, b);
      assert [a[..e]] + (Components(rest) + Components(b)) == ([a[..e]] + Components(rest)) + Components(b);
    }
  }

  lemma Empty()
    ensures Components("") == []
  {
  }

  /** A component has no slash after its first character, and a path without slashes is one component. */
  lemma {:induction false} ComponentsPlain(p: string)
    requires Ready(p)
    ensures forall c :: c in Components(p) ==> c != "" && '/' !in c
    ensures p != "" && '/' !in p ==> Components(p) == [p]
    decreases |p|
  {
    if p != "" {
      var e := ComponentEnd(p, 1);
      ComponentsPlain(SkipSlashes(p[e..]));
      forall k | 0 <= k < e ensures p[..e][k] != '/' {
      }
      assert e == |p| ==> p[..e] == p && p[e..] == "";
    }
  }

  // ---- resolution, component by component

  function Absolute(target: string): bool {
    target == "" || target[0] == '/'
  }

  /** What resolving the components todo from v comes to, as the t-th question on; links have been followed so far. */
  function Follow(env: Env, todo: seq<string>, v: Vn, eat: bool, t: nat, links: nat): Result
    requires links <= MAX_SYM_LINKS
    decreases MAX_SYM_LINKS - links, |todo|
  {
    if todo == [] then Found(v)
    else
      var up := env.mountPoint(t, v);
      var from := if todo[0] == ".." && up.Some? then up.value else v;
      match env.walk(t, from, todo[0], eat || |todo| > 1)
      case Failed(err) => Error(err)
      case Reached(w) =>
        var over := env.mountedRoot(t, w);
        Follow(env, todo[1..], if over.Some? then over.value else w, eat, t + 1, links)
      case Link(target) =>
        if links == MAX_SYM_LINKS then Loop
        else if Absolute(target) then Follow(env, Components(SkipSlashes(target)) + todo[1..], env.root, eat, t + 1, links + 1)
        else Follow(env, Components(target) + todo[1..], from, eat, t + 1, links + 1)
  }

  /** One component after the other: '..' at the root of what is mounted goes on from where it is mounted, and a vnode
      something is mounted on gives way to the root of that. */
  ghost predicate Passes(env: Env, todo: seq<string>, eat: bool, t: nat, via: seq<Vn>, i: nat) {
    && i < |todo| && |via| == |todo| + 1
    && var up := env.mountPoint(t + i, via[i]);
       var w := env.walk(t + i, if todo[i] == ".." && up.Some? then up.value else via[i], todo[i], eat || i + 1 < |todo|);
       w.Reached? && via[i + 1] == match env.mountedRoot(t + i, w.vn) case Some(root) => root case None => w.vn
  }

  ghost predicate AllPass(env: Env, todo: seq<string>, eat: bool, t: nat, via: seq<Vn>) {
    |via| == |todo| + 1 && forall i :: 0 <= i < |todo| ==> Passes(env, todo, eat, t, via, i)
  }

  lemma PassOn(env: Env, todo: seq<string>, eat: bool, t: nat, via: seq<Vn>)
    requires AllPass(env, todo, eat, t, via) && todo != []
    ensures AllPass(env, todo[1..], eat, t + 1, via[1..])
  {
    var todo', via', t' := todo[1..], via[1..], t + 1;
    forall i | 0 <= i < |todo'| ensures Passes(env, todo', eat, t', via', i) {
      assert Passes(env, todo, eat, t, via, i + 1);
      assert t' + i == t + (i + 1);
    }
  }

  /** Without links, a path leads along its components, and then on. */
  lemma {:induction false} FollowPlain(env: Env, todo: seq<string>, rest: seq<string>, v: Vn, eat: bool, t: nat, links: nat, via: seq<Vn>)
    requires links <= MAX_SYM_LINKS && AllPass(env, todo, eat || rest != [], t, via) && via[0] == v
    ensures Follow(env, todo + rest, v, eat, t, links) == Follow(env, rest, via[|todo|], eat, t + |todo|, links)
    decreases |todo|
  {
    if todo == [] {
      assert todo + rest == rest;
    } else {
      assert Passes(env, todo, eat || rest != [], t, via, 0);
      PassOn(env, todo, eat || rest != [], t, via);
      hide Follow, AllPass;
      var up := env.mountPoint(t, v);
      var from := if todo[0] == ".." && up.Some? then up.value else v;
      assert t + 0 == t;
      assert todo + rest == [todo[0]] + (todo[1..] + rest);
      FollowReached(env, todo[0], todo[1..] + rest, v, eat, t, links, from, env.walk(t, from, todo[0], eat || |todo| > 1 || rest != []), via[1]);
      FollowPlain(env, todo[1..], rest, via[1], eat, t + 1, links, via[1..]);
    }
  }

  /** So a path without links comes to where its last component leads. */
  lemma FollowAll(env: Env, todo: seq<string>, v: Vn, eat: bool, t: nat, links: nat, via: seq<Vn>)
    requires links <= MAX_SYM_LINKS && AllPass(env, todo, eat, t, via) && via[0] == v
    ensures Follow(env, todo, v, eat, t, links) == Found(via[|todo|])
  {
    FollowPlain(env, todo, [], v, eat, t, links, via);
    assert todo + [] == todo;
  }

  /** A link counts as its components: of an absolute target from the root of all, of another one from where the link
      is. */
  lemma LinkLeads(env: Env, c: string, rest: seq<string>, v: Vn, eat: bool, t: nat, links: nat, target: string, via: seq<Vn>)
    requires links < 16 && c != ".." && env.walk(t, v, c, eat || rest != []) == Link(target)
    requires var abs := target == "" || target[0] == '/';
      && AllPass(env, Components(if abs then SkipSlashes(target) else target), eat || rest != [], t + 1, via)
      && via[0] == if abs then env.root else v
    ensures Follow(env, [c] + rest, v, eat, t, links) == Follow(env, rest, via[|via| - 1], eat, t + |via|, links + 1)
  {
    hide Follow, Components, SkipSlashes, Passes;
    var todo := Components(if Absolute(target) then SkipSlashes(target) else target);
    FollowLink(env, c, rest, v, eat, t, links, v, Link(target), todo + rest, via[0]);
    FollowPlain(env, todo, rest, via[0], eat, t + 1, links + 1, via);
  }

  /** Of links that lead to one another, 16 are followed, and no more. */
  lemma {:induction false} LinkLimit(env: Env, cs: seq<string>, v: Vn, eat: bool, t: nat, links: nat, w: Vn)
    requires links <= 16 && cs != [] && forall i :: 0 <= i < |cs| ==> cs[i] != "" && cs[i] != ".." && '/' !in cs[i]
    requires forall i :: 0 <= i < |cs| - 1 ==> env.walk(t + i, v, cs[i], eat) == Link(cs[i + 1])
    requires env.walk(t + |cs| - 1, v, cs[|cs| - 1], eat) == Reached(w) && env.mountedRoot(t + |cs| - 1, w) == None
    ensures Follow(env, [cs[0]], v, eat, t, links) == if links + |cs| - 1 <= 16 then Found(w) else Loop
    decreases |cs|
  {
    if |cs| == 1 {
      assert [cs[0]][1..] == [];
    } else {
      assert env.walk(t + 0, v, cs[0], eat) == Link(cs[0 + 1]);
      ComponentsPlain(cs[1]);
      assert [cs[0]][1..] == [] && Components(cs[1]) + [] == [cs[1]];
      if links < 16 {
        forall i | 0 <= i < |cs| - 2 ensures env.walk(t + 1 + i, v, cs[1..][i], eat) == Link(cs[1..][i + 1]) {
          assert env.walk(t + (i + 1), v, cs[i + 1], eat) == Link(cs[i + 2]);
        }
        LinkLimit(env, cs[1..], v, eat, t + 1, links + 1, w);
      }
      hide Components;
    }
  }

  lemma FollowReached(env: Env, c: string, rest: seq<string>, v: Vn, eat: bool, t: nat, links: nat, from: Vn, w: Walk, to: Vn)
    requires links <= MAX_SYM_LINKS
    requires from == if c == ".." && env.mountPoint(t, v).Some? then env.mountPoint(t, v).value else v
    requires w == env.walk(t, from, c, eat || rest != []) && w.Reached?
    requires to == if env.mountedRoot(t, w.vn).Some? then env.mountedRoot(t, w.vn).value else w.vn
    ensures Follow(env, [c] + rest, v, eat, t, links) == Follow(env, rest, to, eat, t + 1, links)
  {
    assert ([c] + rest)[1..] == rest;
  }

  lemma FollowLink(env: Env, c: string, rest: seq<string>, v: Vn, eat: bool, t: nat, links: nat, from: Vn, w: Walk,
                   todo: seq<string>, to: Vn)
    requires links < MAX_SYM_LINKS
    requires from == if c == ".." && env.mountPoint(t, v).Some? then env.mountPoint(t, v).value else v
    requires w == env.walk(t, from, c, eat || rest != []) && w.Link?
    requires todo == Components(if Absolute(w.target) then SkipSlashes(w.target) else w.target) + rest
    requires to == if Absolute(w.target) then env.root else from
    ensures Follow(env, [c] + rest, v, eat, t, links) == Follow(env, todo, to, eat, t + 1, links + 1)
  {
    assert ([c] + rest)[1..] == rest;
    hide Components, SkipSlashes;
  }

  lemma FollowFails(env: Env, c: string, rest: seq<string>, v: Vn, eat: bool, t: nat, links: nat, from: Vn, w: Walk)
    requires links <= MAX_SYM_LINKS
    requires from == if c == ".." && env.mountPoint(t, v).Some? then env.mountPoint(t, v).value else v
    requires w == env.walk(t, from, c, eat || rest != [])
    ensures w.Failed? ==> Follow(env, [c] + rest, v, eat, t, links) == Error(w.err)
    ensures w.Link? && links == MAX_SYM_LINKS ==> Follow(env, [c] + rest, v, eat, t, links) == Loop
  {
    assert ([c] + rest)[1..] == rest;
    hide Components, SkipSlashes;
  }

  /** One turn of the loop: either it ends with the answer, or the answer is that of what is left, which is less. */
  ghost predicate Turned(env: Env, p: string, v: Vn, eat: bool, t: nat, links: nat,
                         failure: Option<Result>, p': string, v': Vn, links': nat)
  {
    links <= MAX_SYM_LINKS &&
    match failure
    case Some(r) => !r.Found? && r == Follow(env, Components(p), v, eat, t, links)
    case None =>
      && links <= links' <= MAX_SYM_LINKS && (links' == links ==> |p'| < |p|)
      && Follow(env, Components(p), v, eat, t, links) == Follow(env, Components(p'), v', eat, t + 1, links')
  }

  lemma TurnReached(env: Env, p: string, c: string, rest: string, v: Vn, eat: bool, t: nat, links: nat, from: Vn, w: Walk, to: Vn)
    requires links <= MAX_SYM_LINKS && Components(p) == [c] + Components(rest) && |rest| < |p|
    requires from == if c == ".." && env.mountPoint(t, v).Some? then env.mountPoint(t, v).value else v
    requires w == env.walk(t, from, c, eat || rest != "") && w.Reached?
    requires to == if env.mountedRoot(t, w.vn).Some? then env.mountedRoot(t, w.vn).value else w.vn
    ensures Turned(env, p, v, eat, t, links, None, rest, to, links)
  {
    Emptied(rest);
    hide Follow, Components;
    FollowReached(env, c, Components(rest), v, eat, t, links, from, w, to);
  }

  lemma TurnLink(env: Env, p: string, c: string, rest: string, v: Vn, eat: bool, t: nat, links: nat, from: Vn, w: Walk,
                 p': string, to: Vn)
    requires links < MAX_SYM_LINKS && Components(p) == [c] + Components(rest)
    requires from == if c == ".." && env.mountPoint(t, v).Some? then env.mountPoint(t, v).value else v
    requires w == env.walk(t, from, c, eat || rest != "") && w.Link?
    requires Components(p') == Components(if Absolute(w.target) then SkipSlashes(w.target) else w.target) + Components(rest)
    requires to == if Absolute(w.target) then env.root else from
    ensures Turned(env, p, v, eat, t, links, None, p', to, links + 1)
  {
    Emptied(rest);
    hide Follow, Components, SkipSlashes;
    FollowLink(env, c, Components(rest), v, eat, t, links, from, w, Components(p'), to);
  }

  lemma TurnFails(env: Env, p: string, c: string, rest: string, v: Vn, eat: bool, t: nat, links: nat, from: Vn, w: Walk)
    requires links <= MAX_SYM_LINKS && Components(p) == [c] + Components(rest)
    requires from == if c == ".." && env.mountPoint(t, v).Some? then env.mountPoint(t, v).value else v
    requires w == env.walk(t, from, c, eat || rest != "")
    ensures w.Failed? ==> Turned(env, p, v, eat, t, links, Some(Error(w.err)), p, v, links)
    ensures w.Link? && links == MAX_SYM_LINKS ==> Turned(env, p, v, eat, t, links, Some(Loop), p, v, links + 1)
  {
    Emptied(rest);
    hide Follow, Components;
    FollowFails(env, c, Components(rest), v, eat, t, links, from, w);
  }

  lemma Emptied(p: string)
    ensures Components(p) == [] <==> p == ""
  {
  }

  lemma FollowEnd(env: Env, v: Vn, eat: bool, t: nat, links: nat)
    requires links <= MAX_SYM_LINKS
    ensures Follow(env, Components(""), v, eat, t, links) == Found(v)
  {
  }

  // ---- the code

  class Resolver {
    const env: Env
    var refs: multiset<Vn>    // all references in the vnode table: the count of v is refs[v]

    constructor (env: Env, refs: multiset<Vn>)
      ensures this.env == env && this.refs == refs
    {
      this.env, this.refs := env, refs;
    }

    method Inc(v: Vn)
      modifies this
      ensures refs == old(refs) + multiset{v}
    {
      refs := refs + multiset{v};
    }

    method Dec(v: Vn)
      requires v in refs
      modifies this
      ensures refs == old(refs) - multiset{v}
    {
      refs := refs - multiset{v};
    }

    /** The next component and where it ends; what follows it, past any slashes. */
    method Isolate(p: string) returns (component: string, rest: string)
      requires p != ""
      ensures Components(p) == [component] + Components(rest)
      ensures Ready(rest) && |rest| < |p|
    {
      var i := 1;
      while i < |p| && p[i] != '/'
        invariant 1 <= i <= |p| && ComponentEnd(p, 1) == ComponentEnd(p, i)
      {
        i := i + 1;
      }
      var j := i;
      while j < |p| && p[j] == '/'
        invariant i <= j <= |p| && SkipSlashes(p[i..]) == SkipSlashes(p[j..])
      {
        assert p[j..][1..] == p[j + 1..];
        j := j + 1;
      }
      component, rest := p[..i], p[j..];
    }

    /** Whatever the file systems answer, resolution ends, with the answer of Follow; the caller's reference on bvn is
        used up, and a reference on the result is the caller's. */
    method ParsePath(bvn: Vn, path: Option<string>, eatsymlink: bool) returns (r: Result)
      requires bvn in refs
      modifies this
      ensures path == None ==> r == Found(bvn)
      ensures path.Some? ==> r == Follow(env, Components(path.value), bvn, eatsymlink, 0, 0)
      ensures refs == if r.Found? then old(refs) - multiset{bvn} + multiset{r.vn} else old(refs) - multiset{bvn}
    {
      if path == None {
        return Found(bvn);
      }
      hide Components, Follow;
      ghost var others := refs - multiset{bvn};
      var p, v, iter, now := path.value, bvn, 0, 0;
      ghost var answer := Follow(env, Components(p), bvn, eatsymlink, 0, 0);
      while p != ""
        invariant iter <= MAX_SYM_LINKS && refs == others + multiset{v}
        invariant answer == Follow(env, Components(p), v, eatsymlink, now, iter)
        decreases MAX_SYM_LINKS - iter, |p|
      {
        Cancel(others, v);
        var failure: Option<Result>;
        failure, p, v, iter := Advance(p, v, eatsymlink, now, iter);
        if failure.Some? {
          return failure.value;
        }
        now := now + 1;
      }
      FollowEnd(env, v, eatsymlink, now, iter);
      r := Found(v);
    }

    /** One component: either the end of it all, or what is left from where. */
    method Advance(p: string, v: Vn, eatsymlink: bool, now: nat, iter: nat)
      returns (failure: Option<Result>, p': string, v': Vn, iter': nat)
      requires v in refs && p != "" && iter <= MAX_SYM_LINKS
      modifies this
      ensures Turned(env, p, v, eatsymlink, now, iter, failure, p', v', iter')
      ensures refs == if failure.Some? then old(refs) - multiset{v} else old(refs) - multiset{v} + multiset{v'}
    {
      hide Components, Turned, SkipSlashes, ComponentEnd, Absolute;
      failure, p', v', iter' := None, p, v, iter;
      ghost var others := refs - multiset{v};
      var component, rest := Isolate(p);
      var from := Climb(component, v, now);
      Cancel(others, from);
      var w := env.walk(now, from, component, eatsymlink || rest != "");
      TurnFails(env, p, component, rest, v, eatsymlink, now, iter, from, w);
      match w {
        case Failed(err) =>
          Dec(from);
          failure := Some(Error(err));
        case Reached(vn) =>
          v' := Cross(from, vn, now);
          p' := rest;
          TurnReached(env, p, component, rest, v, eatsymlink, now, iter, from, w, v');
        case Link(target) =>
          iter' := iter + 1;
          if iter' > MAX_SYM_LINKS {
            Dec(from);
            failure := Some(Loop);
          } else {
            p', v' := Splice(target, rest, from);
            TurnLink(env, p, component, rest, v, eatsymlink, now, iter, from, w, p', v');
          }
      }
    }

    /** For '..' at the root of a mounted name space, go on from the vnode it is mounted on. */
    method Climb(component: string, v: Vn, now: nat) returns (from: Vn)
      requires v in refs
      modifies this
      ensures from == if component == ".." && env.mountPoint(now, v).Some? then env.mountPoint(now, v).value else v
      ensures refs == old(refs) - multiset{v} + multiset{from}
    {
      from := v;
      if component == ".." && env.mountPoint(now, v).Some? {
        from := env.mountPoint(now, v).value;
        Exchange(refs, v, from);
        Inc(from);
        Dec(v);
      }
    }

    /** The walk got from one vnode to another, with a reference on it; if something is mounted there, go on from its
        root. */
    method Cross(from: Vn, vn: Vn, now: nat) returns (v: Vn)
      requires from in refs
      modifies this
      ensures v == if env.mountedRoot(now, vn).Some? then env.mountedRoot(now, vn).value else vn
      ensures refs == old(refs) - multiset{from} + multiset{v}
    {
      ghost var others := refs - multiset{from};
      Exchange(refs, from, vn);
      refs := refs + multiset{vn};
      Dec(from);
      v := vn;
      if env.mountedRoot(now, vn).Some? {
        v := env.mountedRoot(now, vn).value;
        Exchange(refs, vn, v);
        Inc(v);
        Dec(vn);
        Cancel(others, vn);
      }
    }

    /** The link's target, then the rest; an absolute one starts over from the root. */
    method Splice(target: string, rest: string, from: Vn) returns (p: string, v: Vn)
      requires from in refs && Ready(rest)
      modifies this
      ensures Components(p) == Components(if Absolute(target) then SkipSlashes(target) else target) + Components(rest)
      ensures v == if Absolute(target) then env.root else from
      ensures refs == old(refs) - multiset{from} + multiset{v}
    {
      hide Components, SkipSlashes;
      v := from;
      p := target + "/" + rest;
      Spliced(target, rest);
      if p[0] == '/' {
        p := SkipSlashes(p);
        Dec(v);
        v := env.root;
        Inc(v);
      }
    }

    static lemma Exchange(a: multiset<Vn>, u: Vn, v: Vn)
      requires u in a
      ensures (a + multiset{v}) - multiset{u} == (a - multiset{u}) + multiset{v}
    {
    }

    static lemma Cancel(a: multiset<Vn>, v: Vn)
      ensures (a + multiset{v}) - multiset{v} == a
    {
    }

    /** The new text has the components of the target and then those of the rest. */
    static lemma Spliced(target: string, rest: string)
      requires Ready(rest)
      ensures Absolute(target) <==> (target + "/" + rest)[0] == '/'
      ensures Absolute(target) ==>
        Components(SkipSlashes(target + "/" + rest)) == Components(SkipSlashes(target)) + Components(rest)
      ensures !Absolute(target) ==> Components(target + "/" + rest) == Components(target) + Components(rest)
    {
      SkipJoin(target, rest);
      if Absolute(target) {
        if SkipSlashes(target) != "" { JoinComponents(SkipSlashes(target), rest); }
      } else {
        JoinComponents(target, rest);
      }
    }
  }
}
