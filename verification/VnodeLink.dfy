/** The lists the vnodes are linked into (kernel.c): each vnode has two pairs of links, one for the free, used or locked
    list and one for the list of its name space.  What relinking does to the links is compared here with what it does to
    the sequences VnodeModel works on. */
module VnodeLinks {
  import opened Lists
  import opened VnodeModel

  /** vnlink. */
  datatype Link = Link(prev: Option<Ptr>, next: Option<Ptr>)

  /** vnlist, without its count. */
  datatype Anchor = Anchor(head: Option<Ptr>, tail: Option<Ptr>)

  /** All links there are.  Only the three lists are counted. */
  datatype Store = Store(list: map<Ptr, Link>, lists: map<Which, Anchor>, num: map<Which, int>,
                         nspace: map<Ptr, Link>, spaces: map<int, Anchor>)

  function At(l: seq<Ptr>, i: int): Option<Ptr> {
    if 0 <= i < |l| then Some(l[i]) else None
  }

  ghost predicate LinkedAt(links: map<Ptr, Link>, l: seq<Ptr>, i: nat)
    requires i < |l|
  {
    l[i] in links && links[l[i]] == Link(At(l, i - 1), At(l, i + 1))
  }

  /** The links run through the vnodes of l in this order, both ways. */
  ghost predicate Chained(links: map<Ptr, Link>, a: Anchor, l: seq<Ptr>) {
    && (forall i :: 0 <= i < |l| ==> LinkedAt(links, l, i))
    && a.head == At(l, 0) && a.tail == At(l, |l| - 1)
  }

  function SetNext(links: map<Ptr, Link>, q: Option<Ptr>, x: Option<Ptr>): map<Ptr, Link> {
    if q.Some? && q.value in links then links[q.value := links[q.value].(next := x)] else links
  }

  function SetPrev(links: map<Ptr, Link>, q: Option<Ptr>, x: Option<Ptr>): map<Ptr, Link> {
    if q.Some? && q.value in links then links[q.value := links[q.value].(prev := x)] else links
  }

  // ---- taking a vnode off

  /** The links around p go past it. */
  function Bypass(links: map<Ptr, Link>, p: Ptr): map<Ptr, Link>
    requires p in links
  {
    var l := links[p];
    SetPrev(SetNext(links, l.prev, l.next), l.next, l.prev)
  }

  function Off(a: Anchor, l: Link): Anchor {
    Anchor(if l.prev.Some? then a.head else l.next, if l.next.Some? then a.tail else l.prev)
  }

  ghost function IndexOf(l: seq<Ptr>, p: Ptr): (i: nat)
    requires p in l
    ensures i < |l| && l[i] == p
  {
    var i :| 0 <= i < |l| && l[i] == p; i
  }

  lemma {:induction false} WithoutAt(l: seq<Ptr>, i: nat)
    requires Distinct(l) && i < |l|
    ensures Without(l, l[i]) == l[..i] + l[i + 1..]
  {
    if i > 0 {
      assert l[0] != l[i] && Distinct(l[1..]) && l[1..][i - 1] == l[i];
      WithoutAt(l[1..], i - 1);
      assert [l[0]] + l[1..][..i - 1] == l[..i] && l[1..][i..] == l[i + 1..];
    }
  }

  /** What is next to p in l. */
  lemma Around(links: map<Ptr, Link>, a: Anchor, l: seq<Ptr>, p: Ptr)
    requires Chained(links, a, l) && Distinct(l) && p in l
    ensures p in links && links[p].prev != Some(p) && links[p].next != Some(p)
    ensures links[p].prev.Some? ==> links[p].prev.value in l && links[p].prev.value in links
    ensures links[p].next.Some? ==> links[p].next.value in l && links[p].next.value in links
    ensures Bypass(links, p).Keys == links.Keys && forall q :: q in links && q !in l ==> Bypass(links, p)[q] == links[q]
  {
    var i := IndexOf(l, p);
    assert LinkedAt(links, l, i);
    if i > 0 { assert LinkedAt(links, l, i - 1); }
    if i + 1 < |l| { assert LinkedAt(links, l, i + 1); }
  }

  /** The list without p, if the links went through it. */
  lemma BypassChained(links: map<Ptr, Link>, a: Anchor, l: seq<Ptr>, p: Ptr)
    requires Chained(links, a, l) && Distinct(l) && p in l && p in links
    ensures Chained(Bypass(links, p), Off(a, links[p]), Without(l, p))
  {
    var i := IndexOf(l, p);
    WithoutAt(l, i);
    assert LinkedAt(links, l, i);
    var rest := l[..i] + l[i + 1..];
    forall k | 0 <= k < |rest| ensures LinkedAt(Bypass(links, p), rest, k) {
      BypassAt(links, a, l, i, k);
    }
  }

  lemma BypassAt(links: map<Ptr, Link>, a: Anchor, l: seq<Ptr>, i: nat, k: nat)
    requires Chained(links, a, l) && Distinct(l) && i < |l| && l[i] in links && k < |l| - 1
    ensures LinkedAt(Bypass(links, l[i]), l[..i] + l[i + 1..], k)
  {
    var j := if k < i then k else k + 1;
    assert LinkedAt(links, l, i) && LinkedAt(links, l, j);
    assert i > 0 ==> LinkedAt(links, l, i - 1);
    assert i + 1 < |l| ==> LinkedAt(links, l, i + 1);
    RestAt(l, i, k - 1);
    RestAt(l, i, k);
    RestAt(l, i, k + 1);
  }

  lemma RestAt(l: seq<Ptr>, i: nat, k: int)
    requires i < |l|
    ensures At(l[..i] + l[i + 1..], k) == At(l, if k < i then k else k + 1)
  {
  }

  /** A list whose vnodes keep their links stays. */
  lemma ChainStays(links: map<Ptr, Link>, links': map<Ptr, Link>, a: Anchor, l: seq<Ptr>)
    requires Chained(links, a, l) && forall q :: q in l && q in links ==> q in links' && links'[q] == links[q]
    ensures Chained(links', a, l)
  {
    forall i | 0 <= i < |l| ensures LinkedAt(links', l, i) {
      assert LinkedAt(links, l, i);
    }
  }

  // ---- putting one on

  function AtTail(links: map<Ptr, Link>, a: Anchor, p: Ptr): map<Ptr, Link> {
    SetNext(links[p := Link(a.tail, None)], a.tail, Some(p))
  }

  function OnTail(a: Anchor, p: Ptr): Anchor {
    Anchor(if a.tail.Some? then a.head else Some(p), Some(p))
  }

  lemma TailChained(links: map<Ptr, Link>, a: Anchor, l: seq<Ptr>, p: Ptr)
    requires Chained(links, a, l) && Distinct(l) && p in links && p !in l
    ensures Chained(AtTail(links, a, p), OnTail(a, p), l + [p])
    ensures AtTail(links, a, p).Keys == links.Keys && forall q :: q in links && q !in l && q != p ==> AtTail(links, a, p)[q] == links[q]
    ensures a.tail.Some? ==> a.tail.value in links && a.tail.value != p
  {
    if l != [] { assert LinkedAt(links, l, |l| - 1); }
    forall i | 0 <= i < |l| + 1 ensures LinkedAt(AtTail(links, a, p), l + [p], i) {
      assert i < |l| ==> LinkedAt(links, l, i);
    }
  }

  function AtHead(links: map<Ptr, Link>, a: Anchor, p: Ptr): map<Ptr, Link> {
    SetPrev(links[p := Link(None, a.head)], a.head, Some(p))
  }

  function OnHead(a: Anchor, p: Ptr): Anchor {
    Anchor(Some(p), if a.head.Some? then a.tail else Some(p))
  }

  lemma HeadChained(links: map<Ptr, Link>, a: Anchor, l: seq<Ptr>, p: Ptr)
    requires Chained(links, a, l) && Distinct(l) && p in links && p !in l
    ensures Chained(AtHead(links, a, p), OnHead(a, p), [p] + l)
    ensures AtHead(links, a, p).Keys == links.Keys && forall q :: q in links && q !in l && q != p ==> AtHead(links, a, p)[q] == links[q]
    ensures a.head.Some? ==> a.head.value in links && a.head.value != p
  {
    if l != [] { assert LinkedAt(links, l, 0); }
    forall i | 0 <= i < |l| + 1 ensures LinkedAt(AtHead(links, a, p), [p] + l, i) {
      assert i > 0 ==> LinkedAt(links, l, i - 1);
    }
  }

  // ---- the table

  /** A list is linked as t has it, and counted. */
  ghost predicate ListLinked(t: Table, s: Store, w: Which) {
    w in s.lists && w in s.num && s.num[w] == |t.List(w)| && Chained(s.list, s.lists[w], t.List(w))
  }

  ghost predicate ListsLinked(t: Table, s: Store) {
    s.list.Keys == t.vnodes.Keys && ListLinked(t, s, Free) && ListLinked(t, s, Used) && ListLinked(t, s, Locked)
  }

  /** So is the list of a name space, though not counted. */
  ghost predicate SpaceLinked(t: Table, s: Store, n: int) {
    n in t.spaces && n in s.spaces && Chained(s.nspace, s.spaces[n], t.spaces[n]) && SpaceOk(t.vnodes, t.spaces[n], n)
  }

  ghost predicate SpacesLinked(t: Table, s: Store) {
    && s.nspace.Keys == t.vnodes.Keys && s.spaces.Keys == t.spaces.Keys
    && (forall n :: n in t.spaces ==> SpaceLinked(t, s, n))
    && (forall p :: p in t.vnodes && t.vnodes[p].name.Some? ==> t.vnodes[p].name.value.nsid in t.spaces)
  }

  ghost predicate Linked(t: Table, s: Store) {
    ListsInv(t) && ListsLinked(t, s) && SpacesLinked(t, s)
  }

  /** The anchors once p is off its list. */
  function AnchorsOff(s: Store, from: Which, p: Ptr): map<Which, Anchor>
    requires p in s.list && from in s.lists
  {
    s.lists[from := Off(s.lists[from], s.list[p])]
  }

  function NumMoved(num: map<Which, int>, from: Which, w: Which): (r: map<Which, int>)
    requires from in num && w in num
    ensures r.Keys == num.Keys
  {
    var n := num[from := num[from] - 1];
    n[w := n[w] + 1]
  }

  /** p can be moved from one list to the other. */
  predicate Movable(s: Store, from: Which, p: Ptr, w: Which) {
    p in s.list && from in s.lists && w in s.lists && from in s.num && w in s.num
  }

  /** The first half of move_vnode on the links. */
  function Unlisted(s: Store, from: Which, p: Ptr): Store
    requires p in s.list && from in s.lists
  {
    s.(list := Bypass(s.list, p), lists := AnchorsOff(s, from, p))
  }

  /** The second half, counting both. */
  function Listed(s: Store, from: Which, p: Ptr, w: Which): Store
    requires w in s.lists && from in s.num && w in s.num
  {
    s.(list := AtTail(s.list, s.lists[w], p), lists := s.lists[w := OnTail(s.lists[w], p)], num := NumMoved(s.num, from, w))
  }

  function Moved(s: Store, from: Which, p: Ptr, w: Which): Store
    requires Movable(s, from, p, w)
  {
    Listed(Unlisted(s, from, p), from, p, w)
  }

  /** The lists once p is taken off. */
  ghost function Rest(t: Table, p: Ptr, w: Which): seq<Ptr>
    requires p in t.vnodes
  {
    if w == t.vnodes[p].inlist then Without(t.List(w), p) else t.List(w)
  }

  lemma OnItsList(t: Table, p: Ptr)
    requires ListsInv(t) && p in t.vnodes
    ensures p in t.List(t.vnodes[p].inlist)
    ensures forall w: Which :: Distinct(t.List(w)) && forall q :: q in t.List(w) ==> q in t.vnodes && t.vnodes[q].inlist == w
  {
  }

  lemma RestFacts(t: Table, p: Ptr, w: Which)
    requires ListsInv(t) && p in t.vnodes
    ensures Distinct(Rest(t, p, w)) && p !in Rest(t, p, w)
    ensures |Rest(t, p, w)| == |t.List(w)| - if w == t.vnodes[p].inlist then 1 else 0
    ensures forall q :: q in Rest(t, p, w) ==> q in t.vnodes && t.vnodes[q].inlist == w
  {
    OnItsList(t, p);
    hide ListsInv, Distinct, Without;
    WithoutElems(t.List(w), p);
  }

  lemma MoveTakesOff(t: Table, s: Store, p: Ptr, w: Which)
    requires ListsInv(t) && ListsLinked(t, s) && p in t.vnodes
    ensures var from := t.vnodes[p].inlist;
      && p in s.list && from in s.lists && w in AnchorsOff(s, from, p) && Bypass(s.list, p).Keys == s.list.Keys
      && Chained(Bypass(s.list, p), AnchorsOff(s, from, p)[w], Rest(t, p, w))
  {
    var from := t.vnodes[p].inlist;
    OnItsList(t, p);
    hide ListsInv, Without, Distinct, Chained, Bypass;
    Around(s.list, s.lists[from], t.List(from), p);
    if w == from {
      BypassChained(s.list, s.lists[w], t.List(w), p);
    } else {
      ChainStays(s.list, Bypass(s.list, p), s.lists[w], t.List(w));
    }
  }

  /** With p off its list, it goes to the tail of list lw; the list lv of v is the same or another. */
  lemma PutOn(links: map<Ptr, Link>, off: map<Which, Anchor>, lw: seq<Ptr>, lv: seq<Ptr>, p: Ptr, w: Which, v: Which)
    requires w in off && v in off && p in links && p !in lw && p !in lv && Distinct(lw)
    requires Chained(links, off[w], lw) && Chained(links, off[v], lv)
    requires if v == w then lv == lw else forall q :: q in lv ==> q !in lw
    ensures AtTail(links, off[w], p).Keys == links.Keys
    ensures Chained(AtTail(links, off[w], p), off[w := OnTail(off[w], p)][v], if v == w then lw + [p] else lv)
  {
    hide Chained, Distinct, AtTail, OnTail;
    TailChained(links, off[w], lw, p);
    if v != w {
      ChainStays(links, AtTail(links, off[w], p), off[v], lv);
    }
  }

  lemma MovedChain(t: Table, s: Store, p: Ptr, w: Which, v: Which)
    requires ListsInv(t) && ListsLinked(t, s) && p in t.vnodes
    ensures var from, off := t.vnodes[p].inlist, AnchorsOff(s, t.vnodes[p].inlist, p);
      && p in s.list && from in s.lists && w in off && v in off
      && AtTail(Bypass(s.list, p), off[w], p).Keys == s.list.Keys
      && Chained(AtTail(Bypass(s.list, p), off[w], p), off[w := OnTail(off[w], p)][v], t.Move(p, w).List(v))
  {
    MoveTakesOff(t, s, p, w);
    MoveTakesOff(t, s, p, v);
    RestFacts(t, p, w);
    RestFacts(t, p, v);
    MovedLists(t, p, w, v);
    hide *;
    PutOn(Bypass(s.list, p), AnchorsOff(s, t.vnodes[p].inlist, p), Rest(t, p, w), Rest(t, p, v), p, w, v);
  }

  lemma MovedLists(t: Table, p: Ptr, w: Which, v: Which)
    requires p in t.vnodes
    ensures t.Move(p, w).List(v) == if v == w then Rest(t, p, w) + [p] else Rest(t, p, v)
  {
  }

  lemma MovedNum(t: Table, s: Store, p: Ptr, w: Which, v: Which)
    requires ListsInv(t) && ListsLinked(t, s) && p in t.vnodes
    ensures t.vnodes[p].inlist in s.num && w in s.num && v in s.num
    ensures NumMoved(s.num, t.vnodes[p].inlist, w)[v] == |t.Move(p, w).List(v)|
  {
    Counted(t, s, t.vnodes[p].inlist);
    Counted(t, s, w);
    Counted(t, s, v);
    RestFacts(t, p, v);
    MovedLists(t, p, w, v);
    hide ListsInv, ListsLinked, Table.Move, Table.List, Rest;
  }

  lemma Counted(t: Table, s: Store, w: Which)
    requires ListsLinked(t, s)
    ensures w in s.lists && w in s.num && s.num[w] == |t.List(w)|
  {
    hide Chained;
  }

  /** move_vnode leaves list v linked. */
  ghost predicate LinkedAfter(t: Table, s: Store, p: Ptr, w: Which, v: Which)
    requires p in t.vnodes
  {
    var from := t.vnodes[p].inlist;
    Movable(s, from, p, w) && ListLinked(t.Move(p, w), Moved(s, from, p, w), v) && Moved(s, from, p, w).list.Keys == s.list.Keys
  }

  lemma MovedOne(t: Table, s: Store, p: Ptr, w: Which, v: Which)
    requires ListsInv(t) && ListsLinked(t, s) && p in t.vnodes
    ensures LinkedAfter(t, s, p, w, v)
  {
    CanMove(t, s, p, w);
    MovedChain(t, s, p, w, v);
    MovedNum(t, s, p, w, v);
    hide ListsInv, ListsLinked, Chained, Table.Move, Table.List, AtTail, OnTail, Bypass, Off, AnchorsOff, NumMoved, Movable;
  }

  lemma CanMove(t: Table, s: Store, p: Ptr, w: Which)
    requires ListsLinked(t, s) && p in t.vnodes
    ensures Movable(s, t.vnodes[p].inlist, p, w)
  {
    Counted(t, s, t.vnodes[p].inlist);
    Counted(t, s, w);
  }

  lemma MoveLists(t: Table, s: Store, p: Ptr, w: Which)
    requires ListsInv(t) && ListsLinked(t, s) && p in t.vnodes
    ensures var from := t.vnodes[p].inlist;
      && Movable(s, from, p, w)
      && ListsLinked(t.Move(p, w), Moved(s, from, p, w))
  {
    MoveKeeps(t, p, w);
    MovedOne(t, s, p, w, Free);
    MovedOne(t, s, p, w, Used);
    MovedOne(t, s, p, w, Locked);
    hide ListsInv, ListLinked, Table.Move, Moved;
  }

  /** move_vnode on the links is Move on the sequences. */
  lemma MoveLinked(t: Table, s: Store, p: Ptr, w: Which)
    requires Linked(t, s) && p in t.vnodes
    ensures var from := t.vnodes[p].inlist;
      && Movable(s, from, p, w)
      && Linked(t.Move(p, w), Moved(s, from, p, w))
  {
    hide ListsInv, SpacesLinked, ListsLinked, Table.Move, AnchorsOff, AtTail, Bypass, OnTail;
    MoveKeeps(t, p, w);
    MoveLists(t, s, p, w);
    SpacesStay(t, s, t.Move(p, w), Moved(s, t.vnodes[p].inlist, p, w));
  }

  lemma SpacesStay(t: Table, s: Store, t': Table, s': Store)
    requires SpacesLinked(t, s) && s'.nspace == s.nspace && s'.spaces == s.spaces
    requires t'.spaces == t.spaces && t'.vnodes.Keys == t.vnodes.Keys
    requires forall p :: p in t.vnodes ==> t'.vnodes[p].name == t.vnodes[p].name
    ensures SpacesLinked(t', s')
  {
    hide Chained, Distinct;
  }

  lemma ListsLinkedStay(t: Table, s: Store, t': Table, s': Store)
    requires ListsLinked(t, s) && t'.vnodes.Keys == t.vnodes.Keys && t'.free == t.free && t'.used == t.used && t'.locked == t.locked
    requires s'.list == s.list && s'.lists == s.lists && s'.num == s.num
    ensures ListsLinked(t', s')
  {
    hide Chained;
  }

  /** What changes neither lists nor names changes no links. */
  lemma PutLinked(t: Table, s: Store, p: Ptr, vn: Vnode)
    requires Linked(t, s) && p in t.vnodes && vn.inlist == t.vnodes[p].inlist && vn.name == t.vnodes[p].name
    ensures Linked(t.Put(p, vn), s)
  {
    hide ListsInv, SpacesLinked, ListsLinked;
    ListsStay(t, p, vn, t.Put(p, vn));
    ListsLinkedStay(t, s, t.Put(p, vn), s);
    SpacesStay(t, s, t.Put(p, vn), s);
  }

  lemma LogLinked(t: Table, s: Store, e: Event)
    requires Linked(t, s)
    ensures Linked(t.Log(e), s)
  {
    hide ListOk, SpacesLinked, ListsLinked;
    ListsLinkedStay(t, s, t.Log(e), s);
    SpacesStay(t, s, t.Log(e), s);
  }

  /** Off the list of its name space. */
  function Unspaced(s: Store, n: int, p: Ptr): Store
    requires p in s.nspace && n in s.spaces
  {
    s.(nspace := Bypass(s.nspace, p)[p := Link(None, None)], spaces := s.spaces[n := Off(s.spaces[n], s.nspace[p])])
  }

  /** To the head of it. */
  function Spaced(s: Store, n: int, p: Ptr): Store
    requires n in s.spaces
  {
    s.(nspace := AtHead(s.nspace, s.spaces[n], p), spaces := s.spaces[n := OnHead(s.spaces[n], p)])
  }

  lemma ClearLinked(t: Table, s: Store, p: Ptr)
    requires Linked(t, s) && p in t.vnodes && t.vnodes[p].name.Some?
    ensures var n := t.vnodes[p].name.value.nsid; p in s.nspace && n in s.spaces && Linked(t.Clear(p), Unspaced(s, n, p))
  {
    var n := t.vnodes[p].name.value.nsid;
    OnItsSpace(t, s, p);
    ClearSpaces(t, s, p);
    hide ListsInv, SpacesLinked, ListsLinked, Bypass, Off, Without;
    ListsStay(t, p, t.Clear(p).vnodes[p], t.Clear(p));
    ListsLinkedStay(t, s, t.Clear(p), Unspaced(s, n, p));
  }

  lemma ClearSpaces(t: Table, s: Store, p: Ptr)
    requires SpacesLinked(t, s) && p in t.vnodes && t.vnodes[p].name.Some?
    ensures var n := t.vnodes[p].name.value.nsid; p in s.nspace && n in s.spaces && SpacesLinked(t.Clear(p), Unspaced(s, n, p))
  {
    OnItsSpace(t, s, p);
    var t', s' := t.Clear(p), Unspaced(s, t.vnodes[p].name.value.nsid, p);
    UnspacedKeys(t, s, p);
    ClearedKeys(t, p);
    hide SpaceLinked, Unspaced, Table.Clear;
    forall m | m in t'.spaces ensures SpaceLinked(t', s', m) {
      ClearedSpace(t, s, p, m);
    }
  }

  lemma ClearedKeys(t: Table, p: Ptr)
    requires p in t.vnodes && t.vnodes[p].name.Some?
    ensures t.Clear(p).spaces.Keys == t.spaces.Keys
    ensures t.Clear(p).vnodes == t.vnodes[p := Vnode(None, false, Nothing, t.vnodes[p].inlist, 0, 0)]
  {
  }

  lemma UnspacedKeys(t: Table, s: Store, p: Ptr)
    requires SpacesLinked(t, s) && p in t.vnodes && t.vnodes[p].name.Some?
    ensures var n := t.vnodes[p].name.value.nsid;
      && p in s.nspace && n in s.spaces
      && Unspaced(s, n, p).nspace.Keys == s.nspace.Keys && Unspaced(s, n, p).spaces.Keys == s.spaces.Keys
  {
    OnItsSpace(t, s, p);
    hide SpacesLinked, Chained, Bypass;
    Around(s.nspace, s.spaces[t.vnodes[p].name.value.nsid], t.spaces[t.vnodes[p].name.value.nsid], p);
  }

  lemma OnItsSpace(t: Table, s: Store, p: Ptr)
    requires SpacesLinked(t, s) && p in t.vnodes && t.vnodes[p].name.Some?
    ensures var n := t.vnodes[p].name.value.nsid;
      && n in t.spaces && n in s.spaces && p in s.nspace && p in t.spaces[n] && Distinct(t.spaces[n])
      && Chained(s.nspace, s.spaces[n], t.spaces[n])
  {
    assert SpaceLinked(t, s, t.vnodes[p].name.value.nsid);
  }

  lemma ClearedSpace(t: Table, s: Store, p: Ptr, m: int)
    requires SpacesLinked(t, s) && p in t.vnodes && t.vnodes[p].name.Some? && m in t.spaces
    ensures var n := t.vnodes[p].name.value.nsid; p in s.nspace && n in s.spaces && SpaceLinked(t.Clear(p), Unspaced(s, n, p), m)
  {
    var n := t.vnodes[p].name.value.nsid;
    assert SpaceLinked(t, s, m);
    OnItsSpace(t, s, p);
    SpaceElems(t, m);
    SpaceKeeps(t.vnodes, p, t.Clear(p).vnodes[p], t.spaces[m], m);
    hide SpacesLinked, SpaceOk, Chained, Bypass, Off, Without, Distinct;
    UnspacedChain(s.nspace, s.spaces[n], t.spaces[n], p);
    if m != n {
      OtherSpace(t, s, p, m);
    }
  }

  /** The vnodes of another name space are not among those of p's. */
  lemma OtherSpace(t: Table, s: Store, p: Ptr, m: int)
    requires SpacesLinked(t, s) && p in t.vnodes && t.vnodes[p].name.Some? && m in t.spaces && m != t.vnodes[p].name.value.nsid
    ensures var n := t.vnodes[p].name.value.nsid;
      && p in s.nspace && n in t.spaces && m in s.spaces
      && Chained(Bypass(s.nspace, p)[p := Link(None, None)], s.spaces[m], t.spaces[m])
  {
    var n := t.vnodes[p].name.value.nsid;
    assert SpaceLinked(t, s, m);
    OnItsSpace(t, s, p);
    assert SpaceLinked(t, s, n);
    SpaceElems(t, m);
    SpaceElems(t, n);
    hide SpacesLinked, SpaceOk, Chained, Bypass, Distinct;
    Around(s.nspace, s.spaces[n], t.spaces[n], p);
    ChainStays(s.nspace, Bypass(s.nspace, p)[p := Link(None, None)], s.spaces[m], t.spaces[m]);
  }

  lemma UnspacedChain(links: map<Ptr, Link>, a: Anchor, l: seq<Ptr>, p: Ptr)
    requires Chained(links, a, l) && Distinct(l) && p in l && p in links
    ensures Chained(Bypass(links, p)[p := Link(None, None)], Off(a, links[p]), Without(l, p))
  {
    WithoutElems(l, p);
    hide Chained, Bypass, Off, Without, Distinct;
    Around(links, a, l, p);
    BypassChained(links, a, l, p);
    ChainStays(Bypass(links, p), Bypass(links, p)[p := Link(None, None)], Off(a, links[p]), Without(l, p));
  }

  lemma SpaceElems(t: Table, m: int)
    requires m in t.spaces && SpaceOk(t.vnodes, t.spaces[m], m)
    ensures forall q :: q in t.spaces[m] ==> q in t.vnodes && t.vnodes[q].name.Some? && t.vnodes[q].name.value.nsid == m
  {
  }

  lemma NameLinked(t: Table, s: Store, p: Ptr, id: Id, work: Work, rcnt: int, data: int)
    requires Linked(t, s) && p in t.vnodes && t.vnodes[p].name == None && id.nsid in t.spaces
    ensures id.nsid in s.spaces && p in s.nspace && Linked(t.Name(p, id, work, rcnt, data), Spaced(s, id.nsid, p))
  {
    var t' := t.Name(p, id, work, rcnt, data);
    NameSpaces(t, s, p, id, work, rcnt, data);
    hide ListsInv, SpacesLinked, ListsLinked, AtHead, OnHead;
    ListsStay(t, p, t'.vnodes[p], t');
    ListsLinkedStay(t, s, t', Spaced(s, id.nsid, p));
  }

  lemma NameSpaces(t: Table, s: Store, p: Ptr, id: Id, work: Work, rcnt: int, data: int)
    requires SpacesLinked(t, s) && p in t.vnodes && t.vnodes[p].name == None && id.nsid in t.spaces
    ensures id.nsid in s.spaces && p in s.nspace && SpacesLinked(t.Name(p, id, work, rcnt, data), Spaced(s, id.nsid, p))
  {
    var t', s' := t.Name(p, id, work, rcnt, data), Spaced(s, id.nsid, p);
    NamedSpace(t, s, p, id, work, rcnt, data, id.nsid);
    hide SpaceLinked, AtHead, OnHead;
    forall m | m in t'.spaces ensures SpaceLinked(t', s', m) {
      NamedSpace(t, s, p, id, work, rcnt, data, m);
    }
  }

  lemma NamedSpace(t: Table, s: Store, p: Ptr, id: Id, work: Work, rcnt: int, data: int, m: int)
    requires SpacesLinked(t, s) && p in t.vnodes && t.vnodes[p].name == None && id.nsid in t.spaces && m in t.spaces
    ensures id.nsid in s.spaces && p in s.nspace
    ensures var t', s' := t.Name(p, id, work, rcnt, data), Spaced(s, id.nsid, p);
      s'.nspace.Keys == s.nspace.Keys && SpaceLinked(t', s', m)
  {
    assert SpaceLinked(t, s, id.nsid) && SpaceLinked(t, s, m);
    SpaceKeeps(t.vnodes, p, t.Name(p, id, work, rcnt, data).vnodes[p], t.spaces[m], m);
    SpacedChain(t, s, p, id.nsid, m);
    hide SpacesLinked, SpaceOk, Chained, AtHead, OnHead;
  }

  lemma SpacedChain(t: Table, s: Store, p: Ptr, n: int, m: int)
    requires SpacesLinked(t, s) && p in t.vnodes && t.vnodes[p].name == None && n in t.spaces && m in t.spaces
    ensures p in s.nspace && n in s.spaces && m in s.spaces && AtHead(s.nspace, s.spaces[n], p).Keys == s.nspace.Keys
    ensures Chained(AtHead(s.nspace, s.spaces[n], p), if m == n then OnHead(s.spaces[n], p) else s.spaces[m],
                    if m == n then [p] + t.spaces[n] else t.spaces[m])
  {
    assert SpaceLinked(t, s, n) && SpaceLinked(t, s, m);
    SpaceElems(t, m);
    SpaceElems(t, n);
    assert Distinct(t.spaces[n]);
    hide SpaceOk, SpacesLinked, Chained, AtHead, OnHead, Distinct;
    HeadChained(s.nspace, s.spaces[n], t.spaces[n], p);
    if m != n {
      ChainStays(s.nspace, AtHead(s.nspace, s.spaces[n], p), s.spaces[m], t.spaces[m]);
    }
  }

  // ---- the first links

  /** The first i of n vnodes are blank and linked in order, to be the free list. */
  ghost predicate FirstLinked(vns: map<Ptr, Vnode>, list: map<Ptr, Link>, nspace: map<Ptr, Link>, n: nat, i: nat) {
    && (forall p: Ptr :: p in vns <==> p < i) && (forall p: Ptr :: p in list <==> p < i) && (forall p: Ptr :: p in nspace <==> p < i)
    && (forall p: Ptr :: p < i ==> vns[p] == Vnode(None, false, Nothing, Free, 0, 0))
    && (forall p: Ptr :: p < i ==> list[p] == Link(if p == 0 then None else Some(p - 1), if p == n - 1 then None else Some(p + 1)))
  }

  lemma StartLinked(t: Table, s: Store, n: nat)
    requires n > 0 && FirstLinked(t.vnodes, s.list, s.nspace, n, n)
    requires t.free == seq(n, p => p) && t.used == [] && t.locked == []
    requires s.lists == map[Free := Anchor(Some(0), Some(n - 1)), Used := Anchor(None, None), Locked := Anchor(None, None)]
    requires s.num == map[Free := n, Used := 0, Locked := 0]
    requires t.spaces.Keys == s.spaces.Keys && forall m :: m in t.spaces ==> t.spaces[m] == [] && s.spaces[m] == Anchor(None, None)
    ensures Linked(t, s) && forall p :: p in t.free <==> p in t.vnodes
  {
    StartLists(t, n);
    StartChained(t.vnodes, s.list, s.nspace, t.free, n);
    StartSpaces(t, s, n);
    hide FirstLinked, ListsInv, SpacesLinked;
  }

  lemma StartChained(vns: map<Ptr, Vnode>, list: map<Ptr, Link>, nspace: map<Ptr, Link>, l: seq<Ptr>, n: nat)
    requires n > 0 && FirstLinked(vns, list, nspace, n, n) && l == seq(n, p => p)
    ensures Chained(list, Anchor(Some(0), Some(n - 1)), l) && list.Keys == vns.Keys
  {
    assert forall p: Ptr :: p < n ==> l[p] == p;
  }

  lemma StartSpaces(t: Table, s: Store, n: nat)
    requires FirstLinked(t.vnodes, s.list, s.nspace, n, n)
    requires t.spaces.Keys == s.spaces.Keys && forall m :: m in t.spaces ==> t.spaces[m] == [] && s.spaces[m] == Anchor(None, None)
    ensures SpacesLinked(t, s)
  {
    assert s.nspace.Keys == t.vnodes.Keys;
    assert forall p :: p in t.vnodes ==> t.vnodes[p].name == None;
    hide FirstLinked;
    forall m | m in t.spaces ensures SpaceLinked(t, s, m) {
    }
  }

  lemma StartLists(t: Table, n: nat)
    requires t.free == seq(n, p => p) && t.used == [] && t.locked == []
    requires forall p: Ptr :: p in t.vnodes <==> p < n
    requires forall p: Ptr :: p < n ==> t.vnodes[p] == Vnode(None, false, Nothing, Free, 0, 0)
    ensures ListsInv(t) && forall p :: p in t.free <==> p in t.vnodes
  {
    forall p: Ptr ensures p in t.free <==> p in t.vnodes {
      if p < n { assert t.free[p] == p; }
    }
    assert forall p :: p in t.vnodes ==> t.vnodes[p].inlist == Free;
  }

  // ---- what relinking finds

  /** The ends of a link are vnodes, other than p. */
  predicate EndsIn(links: map<Ptr, Link>, l: Link, p: Ptr) {
    && (l.prev.Some? ==> l.prev.value in links && l.prev.value != p)
    && (l.next.Some? ==> l.next.value in links && l.next.value != p)
  }

  predicate Unlistable(s: Store, from: Which, p: Ptr) {
    p in s.list && from in s.lists && EndsIn(s.list, s.list[p], p)
  }

  predicate Listable(s: Store, from: Which, p: Ptr, w: Which) {
    && p in s.list && w in s.lists && from in s.num && w in s.num
    && (s.lists[w].tail.Some? ==> s.lists[w].tail.value in s.list && s.lists[w].tail.value != p)
  }

  /** The two halves of move_vnode can do their work, and it is the right one. */
  ghost predicate MoveReady(t: Table, s: Store, p: Ptr, w: Which)
    requires p in t.vnodes
  {
    var from := t.vnodes[p].inlist;
    && Unlistable(s, from, p) && Listable(Unlisted(s, from, p), from, p, w)
    && Linked(t.Move(p, w), Listed(Unlisted(s, from, p), from, p, w))
  }

  lemma MoveEnds(t: Table, s: Store, p: Ptr, w: Which)
    requires Linked(t, s) && p in t.vnodes
    ensures MoveReady(t, s, p, w)
  {
    MoveLinked(t, s, p, w);
    ListEnds(t, s, p, w);
    hide Linked, AtTail, OnTail, Bypass, AnchorsOff, Table.Move, EndsIn;
  }

  lemma ListEnds(t: Table, s: Store, p: Ptr, w: Which)
    requires Linked(t, s) && p in t.vnodes
    ensures var from := t.vnodes[p].inlist;
      && Movable(s, from, p, w) && EndsIn(s.list, s.list[p], p)
      && Bypass(s.list, p).Keys == s.list.Keys && w in AnchorsOff(s, from, p)
      && var a := AnchorsOff(s, from, p)[w]; a.tail.Some? ==> a.tail.value in s.list && a.tail.value != p
  {
    var from := t.vnodes[p].inlist;
    CanMove(t, s, p, w);
    Counted(t, s, from);
    OnItsList(t, p);
    MoveTakesOff(t, s, p, w);
    RestFacts(t, p, w);
    assert Chained(s.list, s.lists[from], t.List(from));
    hide ListsInv, ListsLinked, SpacesLinked, Chained, Bypass, Rest, Table.List;
    Around(s.list, s.lists[from], t.List(from), p);
    TailChained(Bypass(s.list, p), AnchorsOff(s, from, p)[w], Rest(t, p, w), p);
  }

  lemma MovedIs(t: Table, p: Ptr, w: Which)
    requires p in t.vnodes
    ensures var t' := t.Move(p, w);
      t' == t.(vnodes := t.vnodes[p := t.vnodes[p].(inlist := w)], free := t'.free, used := t'.used, locked := t'.locked)
  {
  }

  lemma HeadIs(t: Table, s: Store, w: Which)
    requires Linked(t, s)
    ensures w in s.lists && s.lists[w].head == if t.List(w) == [] then None else Some(t.List(w)[0])
    ensures t.List(w) != [] ==> t.List(w)[0] in t.vnodes
  {
    Counted(t, s, w);
    if t.List(w) != [] { FirstOf(t, w); }
  }

  predicate Unspaceable(s: Store, n: int, p: Ptr) {
    p in s.nspace && n in s.spaces && EndsIn(s.nspace, s.nspace[p], p)
  }

  lemma ClearEnds(t: Table, s: Store, p: Ptr)
    requires Linked(t, s) && p in t.vnodes && t.vnodes[p].name.Some?
    ensures var n := t.vnodes[p].name.value.nsid; Unspaceable(s, n, p) && Linked(t.Clear(p), Unspaced(s, n, p))
    ensures t.Clear(p).vnodes == t.vnodes[p := Vnode(None, false, Nothing, t.vnodes[p].inlist, 0, 0)]
  {
    var n := t.vnodes[p].name.value.nsid;
    ClearLinked(t, s, p);
    OnItsSpace(t, s, p);
    Around(s.nspace, s.spaces[n], t.spaces[n], p);
    hide Linked, Chained, Bypass;
  }

  predicate Spaceable(s: Store, n: int, p: Ptr) {
    && p in s.nspace && n in s.spaces
    && (s.spaces[n].head.Some? ==> s.spaces[n].head.value in s.nspace && s.spaces[n].head.value != p)
  }

  lemma NameEnds(t: Table, s: Store, p: Ptr, id: Id, work: Work, rcnt: int, data: int)
    requires Linked(t, s) && p in t.vnodes && t.vnodes[p].name == None && id.nsid in t.spaces
    ensures Spaceable(s, id.nsid, p) && Linked(t.Name(p, id, work, rcnt, data), Spaced(s, id.nsid, p))
  {
    var n := id.nsid;
    NameLinked(t, s, p, id, work, rcnt, data);
    assert SpaceLinked(t, s, n);
    SpaceElems(t, n);
    HeadChained(s.nspace, s.spaces[n], t.spaces[n], p);
    hide ListsInv, ListsLinked, Chained, AtHead;
  }
}
