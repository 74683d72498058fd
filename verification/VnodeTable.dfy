/** The vnode table (kernel.c) changed in place, one method for each stretch of code that runs with vnlock held.  The
    lists are relinked as the code does it; each method does what its counterpart in VnodeModel says. */
module VnodeTables {
  import opened Lists
  import opened VnodeModel
  import opened VnodeLinks
  import opened VnodeUses

  class VnodeTable {
    const usdvnnum: nat
    var vnodes: map<Ptr, Vnode>
    var listLinks: map<Ptr, Link>    // each vnode's list
    var lists: map<Which, Anchor>
    var num: map<Which, int>
    var nsLinks: map<Ptr, Link>      // each vnode's nspace
    var nspaces: map<int, Anchor>    // the vnodes of each name space
    var index: map<Id, Ptr>          // the skip list
    ghost var free: seq<Ptr>
    ghost var used: seq<Ptr>
    ghost var locked: seq<Ptr>
    ghost var spaces: map<int, seq<Ptr>>
    ghost var log: seq<Event>

    ghost function Now(): Table
      reads this
    {
      Table(vnodes, free, used, locked, index, spaces, usdvnnum, log)
    }

    function Links(): Store
      reads this
    {
      Store(listLinks, lists, num, nsLinks, nspaces)
    }

    /** The links run through the vnodes as Now() has them. */
    ghost predicate Valid()
      reads this
    {
      Linked(Now(), Links())
    }

    /** init_vnode_layer: all vnodes are on the free list; nothing is in the name spaces that are mounted. */
    constructor (vnnum: nat, mounted: set<int>)
      requires vnnum > 0
      ensures Valid() && Init(Now()) && usdvnnum == vnnum / 4
      ensures |free| == vnnum && spaces.Keys == mounted
    {
      var vns: map<Ptr, Vnode>, list: map<Ptr, Link>, nspace: map<Ptr, Link> := map[], map[], map[];
      for i := 0 to vnnum
        invariant FirstLinked(vns, list, nspace, vnnum, i)
      {
        vns := vns[i := Vnode(None, false, Nothing, Free, 0, 0)];
        nspace := nspace[i := Link(None, None)];
        list := list[i := Link(if i == 0 then None else Some(i - 1), if i == vnnum - 1 then None else Some(i + 1))];
      }
      usdvnnum := vnnum / 4;
      vnodes, listLinks, nsLinks := vns, list, nspace;
      lists := map[Free := Anchor(Some(0), Some(vnnum - 1)), Used := Anchor(None, None), Locked := Anchor(None, None)];
      num := map[Free := vnnum, Used := 0, Locked := 0];
      nspaces := map n | n in mounted :: Anchor(None, None);
      index := map[];
      free, used, locked := seq(vnnum, p => p), [], [];
      spaces := map n | n in mounted :: [];
      log := [];
      new;
      StartLinked(Now(), Links(), vnnum);
    }

    // ---- list and index operations

    /** move_vnode: off its list and to the tail of another. */
    method MoveVnode(p: Ptr, list: Which)
      requires Valid() && p in vnodes
      modifies this
      ensures Valid() && Now() == old(Now()).Move(p, list)
    {
      MoveEnds(Now(), Links(), p, list);
      hide Linked, MoveReady, Table.Move;
      Relink(p, list);
      ChangeList(p, list);
    }

    method Relink(p: Ptr, list: Which)
      requires p in vnodes && MoveReady(Now(), Links(), p, list)
      modifies this`listLinks, this`lists, this`num
      ensures Linked(Now().Move(p, list), Links())
    {
      hide Linked, Listed, Unlisted, Table.Move, Unlistable, Listable;
      UnlinkFromList(p);
      LinkToTail(p, list);
    }

    /** inlist, and what the links now run through. */
    method ChangeList(p: Ptr, list: Which)
      requires p in vnodes && Linked(Now().Move(p, list), Links())
      modifies this`vnodes, this`free, this`used, this`locked
      ensures Valid() && Now() == old(Now()).Move(p, list)
    {
      hide Linked, Table.Move, Valid;
      ghost var t := Now().Move(p, list);
      MovedIs(Now(), p, list);
      vnodes := vnodes[p := vnodes[p].(inlist := list)];
      free, used, locked := t.free, t.used, t.locked;
      assert Now() == t;
      IsValid();
    }

    lemma IsValid()
      requires Linked(Now(), Links())
      ensures Valid()
    {
      hide Linked;
    }

    /** The first half of move_vnode. */
    method UnlinkFromList(p: Ptr)
      requires p in vnodes && Unlistable(Links(), vnodes[p].inlist, p)
      modifies this`listLinks, this`lists
      ensures Links() == Unlisted(old(Links()), vnodes[p].inlist, p)
    {
      var from, prev, next := vnodes[p].inlist, listLinks[p].prev, listLinks[p].next;
      if prev.Some? {
        listLinks := listLinks[prev.value := listLinks[prev.value].(next := next)];
      } else {
        lists := lists[from := lists[from].(head := next)];
      }
      if next.Some? {
        listLinks := listLinks[next.value := listLinks[next.value].(prev := prev)];
      } else {
        lists := lists[from := lists[from].(tail := prev)];
      }
      assert lists == AnchorsOff(old(Links()), from, p);
    }

    /** The second half; the counts of both lists. */
    method LinkToTail(p: Ptr, list: Which)
      requires p in vnodes && Listable(Links(), vnodes[p].inlist, p, list)
      modifies this`listLinks, this`lists, this`num
      ensures Links() == Listed(old(Links()), vnodes[p].inlist, p, list)
    {
      num := num[vnodes[p].inlist := num[vnodes[p].inlist] - 1];
      var last := lists[list].tail;
      listLinks := listLinks[p := Link(last, None)];
      if last.Some? {
        listLinks := listLinks[last.value := listLinks[last.value].(next := Some(p))];
      } else {
        lists := lists[list := lists[list].(head := Some(p))];
      }
      lists := lists[list := lists[list].(tail := Some(p))];
      num := num[list := num[list] + 1];
      assert lists == old(lists)[list := OnTail(old(lists)[list], p)];
    }

    /** steal_vnode: the head of a list, moved to the locked list. */
    method StealVnode(list: Which) returns (p: Option<Ptr>)
      requires Valid()
      modifies this
      ensures Valid()
      ensures p == if old(Now()).List(list) == [] then None else Some(old(Now()).List(list)[0])
      ensures p.Some? ==> p.value in old(vnodes)
      ensures Now() == if p.Some? then old(Now()).Move(p.value, Locked) else old(Now())
    {
      HeadIs(Now(), Links(), list);
      hide Linked;
      p := lists[list].head;
      if p.Some? {
        MoveVnode(p.value, Locked);
      }
    }

    /** clear_vnode: out of the index, and of the list of its name space. */
    method ClearVnode(p: Ptr)
      requires Valid() && p in vnodes && vnodes[p].name.Some?
      modifies this
      ensures Valid() && Now() == old(Now()).Clear(p)
    {
      ClearEnds(Now(), Links(), p);
      ghost var t := Now().Clear(p);
      hide Linked, Unspaced, Unspaceable;
      var id := vnodes[p].name.value;
      UnlinkFromSpace(p, id.nsid);
      Erase(p, Vnode(None, false, Nothing, vnodes[p].inlist, 0, 0), id, t);
    }

    /** DeleteSL, and a blank vnode. */
    method Erase(p: Ptr, vn: Vnode, id: Id, ghost t: Table)
      requires Linked(t, Links()) && t == Now().(vnodes := vnodes[p := vn], index := index - {id}, spaces := t.spaces)
      modifies this`vnodes, this`index, this`spaces
      ensures Valid() && Now() == t
    {
      index := index - {id};
      vnodes := vnodes[p := vn];
      spaces := t.spaces;
      hide Linked;
    }

    method UnlinkFromSpace(p: Ptr, n: int)
      requires Unspaceable(Links(), n, p)
      modifies this`nsLinks, this`nspaces
      ensures Links() == Unspaced(old(Links()), n, p)
    {
      var prev, next := nsLinks[p].prev, nsLinks[p].next;
      if prev.Some? {
        nsLinks := nsLinks[prev.value := nsLinks[prev.value].(next := next)];
      } else {
        nspaces := nspaces[n := nspaces[n].(head := next)];
      }
      if next.Some? {
        nsLinks := nsLinks[next.value := nsLinks[next.value].(prev := prev)];
      } else {
        nspaces := nspaces[n := nspaces[n].(tail := prev)];
      }
      nsLinks := nsLinks[p := Link(None, None)];
      assert nspaces == old(nspaces)[n := Off(old(nspaces)[n], old(nsLinks)[p])];
    }

    /** Give p its name, then sort_vnode: InsertSL leaves an entry that is there alone, which counts as success; p goes
        to the head of the list of its name space. */
    method SortVnode(p: Ptr, id: Id, work: Work, rcnt: int, data: int)
      requires Valid() && p in vnodes && vnodes[p].name == None && id.nsid in spaces
      modifies this
      ensures Valid() && Now() == old(Now()).Name(p, id, work, rcnt, data)
    {
      NameEnds(Now(), Links(), p, id, work, rcnt, data);
      ghost var t := Now().Name(p, id, work, rcnt, data);
      hide Linked, Spaced, Spaceable;
      LinkToHead(p, id.nsid);
      Enter(p, vnodes[p].(name := Some(id), work := work, rcnt := rcnt, data := data), id, t);
    }

    /** The name and the rest, and InsertSL. */
    method Enter(p: Ptr, vn: Vnode, id: Id, ghost t: Table)
      requires Linked(t, Links())
      requires t == Now().(vnodes := vnodes[p := vn], index := if id in index then index else index[id := p], spaces := t.spaces)
      modifies this`vnodes, this`index, this`spaces
      ensures Valid() && Now() == t
    {
      vnodes := vnodes[p := vn];
      if id !in index {
        index := index[id := p];
      }
      spaces := t.spaces;
      hide Linked;
    }

    method LinkToHead(p: Ptr, n: int)
      requires Spaceable(Links(), n, p)
      modifies this`nsLinks, this`nspaces
      ensures Links() == Spaced(old(Links()), n, p)
    {
      var first := nspaces[n].head;
      nsLinks := nsLinks[p := Link(None, first)];
      if first.Some? {
        nsLinks := nsLinks[first.value := nsLinks[first.value].(prev := Some(p))];
      } else {
        nspaces := nspaces[n := nspaces[n].(tail := Some(p))];
      }
      nspaces := nspaces[n := nspaces[n].(head := Some(p))];
      assert nspaces == old(nspaces)[n := OnHead(old(nspaces)[n], p)];
    }

    /** A change of a vnode that concerns neither its lists nor its name. */
    method SetVnode(p: Ptr, vn: Vnode)
      requires Valid() && p in vnodes && vn.inlist == vnodes[p].inlist && vn.name == vnodes[p].name
      modifies this`vnodes
      ensures Valid() && Now() == old(Now()).Put(p, vn)
    {
      PutLinked(Now(), Links(), p, vn);
      vnodes := vnodes[p := vn];
      hide Linked;
    }

    // ---- load_vnode

    /** What the lists' counts and the name spaces there are can be read from. */
    lemma Known()
      requires Valid()
      ensures nspaces.Keys == spaces.Keys && Used in num && num[Used] == |used|
    {
      Counted(Now(), Links(), Used);
    }

    /** One turn of load_vnode: the vnode, or what must happen without vnlock before the next. */
    method LoadVnode(id: Id) returns (o: Outcome)
      requires Valid() && Good(Now())
      modifies this
      ensures Valid() && (Now(), o) == Load(old(Now()), id) && Good(Now())
      ensures Serves(old(Now()), LoadStep(id), o, Now())
    {
      LoadKeeps(Now(), id);
      LoadServes(Now(), id);
      if id in index {
        o := Take(id);
      } else {
        o := Fetch(id);
      }
      hide *;
    }

    /** The vnode is there. */
    method Take(id: Id) returns (o: Outcome)
      requires Valid() && Good(Now()) && id in index
      modifies this
      ensures Valid() && (Now(), o) == Load(old(Now()), id)
    {
      var p := index[id];
      Named(id);
      hide Good, Valid, Coupled, NamesInv, ListsInv;
      if vnodes[p].work != Nothing {
        return Retry;
      }
      SetVnode(p, vnodes[p].(rcnt := vnodes[p].rcnt + 1));
      if vnodes[p].rcnt == 1 {
        MoveVnode(p, Locked);
      }
      o := Got(p);
    }

    /** It is not. */
    method Fetch(id: Id) returns (o: Outcome)
      requires Valid() && Good(Now()) && id !in index
      modifies this
      ensures Valid() && (Now(), o) == Load(old(Now()), id)
    {
      Heads();
      if free != [] { MovedIs(Now(), free[0], Locked); }
      hide Good, Valid, Inv, Evict, Table.Move, Table.Name;
      var stolen := StealVnode(Free);
      if stolen.Some? {
        o := ReadInto(stolen.value, id);
      } else {
        o := EvictVnode(Releasing);
      }
    }

    /** The oldest unused vnode is to be given back, if there is one. */
    method EvictVnode(work: Work) returns (o: Outcome)
      requires Valid() && (used != [] ==> used[0] in vnodes && vnodes[used[0]].name.Some?)
      modifies this
      ensures Valid() && o == if old(used) == [] then NoVnode else Flush(old(used)[0])
      ensures Now() == if old(used) == [] then old(Now()) else Evict(old(Now()), work)
    {
      hide Valid;
      var evicted := StealVnode(Used);
      if evicted == None {
        return NoVnode;
      }
      StartFlush(evicted.value, work);
      o := Flush(evicted.value);
    }

    /** A free vnode is to be read into, unless its name space is unknown. */
    method ReadInto(p: Ptr, id: Id) returns (o: Outcome)
      requires Valid() && p in vnodes && vnodes[p].name == None
      modifies this
      ensures Valid()
      ensures o == if id.nsid in old(spaces) then Read(p) else NoEntry
      ensures Now() == if id.nsid in old(spaces) then old(Now()).Name(p, id, Reading, 0, 0).Move(p, Locked) else old(Now()).Move(p, Free)
    {
      Known();
      hide Valid;
      if id.nsid !in nspaces {
        MoveVnode(p, Free);
        return NoEntry;
      }
      SortVnode(p, id, Reading, 0, 0);
      MoveVnode(p, Locked);
      o := Read(p);
    }

    lemma Named(id: Id)
      requires Good(Now()) && id in index
      ensures index[id] in vnodes
    {
      hide ListsInv, Coupled, SpaceOk;
    }

    lemma Heads()
      requires Good(Now())
      ensures free != [] ==> free[0] in vnodes && vnodes[free[0]].name == None
      ensures used != [] ==> used[0] in vnodes && vnodes[used[0]].name.Some?
    {
      hide NamesInv, Coupled;
      if free != [] { FirstOf(Now(), Free); }
      if used != [] { FirstOf(Now(), Used); }
    }

    /** The first half of flush_vnode: busy, and release_vnode is called. */
    method StartFlush(p: Ptr, work: Work)
      requires Valid() && p in vnodes && vnodes[p].name.Some?
      modifies this
      ensures Valid()
      ensures Now() == old(Now()).Put(p, old(vnodes)[p].(work := work))
                                 .Log(Released(old(vnodes)[p].name.value, old(vnodes)[p].rcnt, old(vnodes)[p].remove))
    {
      ghost var e := Released(vnodes[p].name.value, vnodes[p].rcnt, vnodes[p].remove);
      SetVnode(p, vnodes[p].(work := work));
      LogEvent(e);
    }

    /** What is called into the file system, and what comes of it, is written down. */
    ghost method LogEvent(e: Event)
      requires Valid()
      modifies this`log
      ensures Valid() && Now() == old(Now()).Log(e)
    {
      LogLinked(Now(), Links(), e);
      log := log + [e];
      hide Linked;
    }

    /** After read_vnode. */
    method ReadOver(p: Ptr, ok: bool, data: int)
      requires Valid() && Good(Now()) && p in vnodes && vnodes[p].work == Reading
      modifies this
      ensures Valid() && Now() == ReadDone(old(Now()), p, ok, data) && Good(Now())
      ensures Serves(old(Now()), ReadDoneStep(p, ok, data), Done, Now())
    {
      ReadDoneKeeps(Now(), p, ok, data);
      ReadDoneServes(Now(), p, ok, data);
      assert VnodeInv(vnodes[p]);
      hide Good, Inv, Valid, Serves;
      if ok {
        ghost var e := Loaded(vnodes[p].name.value);
        SetVnode(p, vnodes[p].(work := Nothing, rcnt := 1, data := data));
        LogEvent(e);
      } else {
        ClearVnode(p);
        MoveVnode(p, Free);
      }
    }

    /** After release_vnode, or remove_vnode. */
    method CallbackOver(p: Ptr)
      requires Valid() && Good(Now()) && p in vnodes && vnodes[p].work in {Releasing, Removing}
      modifies this
      ensures Valid() && Now() == Freed(old(Now()), p) && Good(Now())
      ensures Serves(old(Now()), FreedStep(p), Done, Now())
    {
      FreedKeeps(Now(), p);
      FreedServes(Now(), p);
      assert VnodeInv(vnodes[p]);
      hide Good, Inv, Valid, Serves;
      ClearVnode(p);
      MoveVnode(p, Free);
    }

    // ---- new_vnode

    method FillVnode(p: Ptr, id: Id, data: int) returns (o: Outcome)
      requires Valid() && p in vnodes && vnodes[p].name == None
      modifies this
      ensures Valid() && (Now(), o) == Fill(old(Now()), p, id, data)
    {
      Known();
      hide Valid;
      if id.nsid !in nspaces {
        return NoEntry;
      }
      SortVnode(p, id, Nothing, 1, data);
      LogEvent(Loaded(id));
      o := Done;
    }

    method NewVnode(id: Id, data: int) returns (o: Outcome)
      requires Valid() && Good(Now())
      modifies this
      ensures Valid() && (Now(), o) == New(old(Now()), id, data)
      ensures old(free) != [] ==> (Good(Now()) <==> id.nsid in old(spaces) && id !in old(index))
      ensures old(free) == [] ==> Good(Now())
      ensures Enabled(old(Now()), NewStep(id, data)) ==> Serves(old(Now()), NewStep(id, data), o, Now())
    {
      NewKeeps(Now(), id, data);
      if Enabled(Now(), NewStep(id, data)) { NewServes(Now(), id, data); }
      Heads();
      hide Good, Inv, Valid, Evict, Serves, Enabled;
      var stolen := StealVnode(Free);
      if stolen.Some? {
        o := FillVnode(stolen.value, id, data);
      } else {
        o := EvictVnode(Renewing);
      }
    }

    method NewVnodeOver(p: Ptr, id: Id, data: int) returns (o: Outcome)
      requires Valid() && Good(Now()) && p in vnodes && vnodes[p].work == Renewing
      modifies this
      ensures Valid() && (Now(), o) == Renewed(old(Now()), p, id, data)
      ensures Good(Now()) <==> id.nsid in old(spaces) && (id !in old(index) || old(vnodes)[p].name == Some(id))
      ensures Enabled(old(Now()), RenewedStep(p, id, data)) ==> Serves(old(Now()), RenewedStep(p, id, data), o, Now())
    {
      RenewedKeeps(Now(), p, id, data);
      if Enabled(Now(), RenewedStep(p, id, data)) { RenewedServes(Now(), p, id, data); }
      assert VnodeInv(vnodes[p]);
      hide Good, Inv, Valid, Serves, Enabled;
      ClearVnode(p);
      o := FillVnode(p, id, data);
    }

    // ---- references

    method DecVnode(p: Ptr) returns (o: Outcome)
      requires Valid() && Good(Now()) && p in vnodes && vnodes[p].rcnt > 0
      modifies this
      ensures Valid() && (Now(), o) == Dec(old(Now()), p) && Good(Now())
      ensures Serves(old(Now()), DecStep(p), o, Now())
    {
      DecKeeps(Now(), p);
      DecServes(Now(), p);
      UsedAfter(p);
      hide Good, Inv, Evict, Table.Move, Valid, Serves;
      SetVnode(p, vnodes[p].(rcnt := vnodes[p].rcnt - 1));
      if vnodes[p].rcnt > 0 {
        return Done;
      }
      if vnodes[p].remove {
        StartRemove(p);
        return Remove(p);
      }
      o := Retire(p);
    }

    /** The last reference to a vnode marked for removal is gone. */
    method StartRemove(p: Ptr)
      requires Valid() && p in vnodes && vnodes[p].name.Some?
      modifies this
      ensures Valid()
      ensures Now() == old(Now()).Put(p, old(vnodes)[p].(work := Removing)).Move(p, Locked)
                                 .Log(Removed(old(vnodes)[p].name.value, old(vnodes)[p].rcnt, old(vnodes)[p].remove))
    {
      hide Valid;
      ghost var e := Removed(vnodes[p].name.value, vnodes[p].rcnt, vnodes[p].remove);
      SetVnode(p, vnodes[p].(work := Removing));
      MoveVnode(p, Locked);
      LogEvent(e);
    }

    /** The last reference to any other vnode is gone: if too many are kept around, the oldest goes. */
    method Retire(p: Ptr) returns (o: Outcome)
      requires Valid() && p in vnodes
      requires var s := Now().Move(p, Used); s.used != [] && s.used[0] in s.vnodes && s.vnodes[s.used[0]].name.Some?
      modifies this
      ensures Valid()
      ensures var s := old(Now()).Move(p, Used);
        (Now(), o) == if |s.used| > usdvnnum then (Evict(s, Releasing), Flush(s.used[0])) else (s, Done)
    {
      MoveVnode(p, Used);
      Known();
      hide Valid, Evict, Table.Move;
      if num[Used] > usdvnnum {
        o := EvictVnode(Releasing);
      } else {
        o := Done;
      }
    }

    /** After p goes to the used list, the head of that list is a vnode with a name. */
    lemma UsedAfter(p: Ptr)
      requires Good(Now()) && p in vnodes && vnodes[p].rcnt > 0
      ensures vnodes[p].name.Some?
      ensures var s := Now().Put(p, vnodes[p].(rcnt := vnodes[p].rcnt - 1)).Move(p, Used);
        s.used != [] && s.used[0] in s.vnodes && s.vnodes[s.used[0]].name.Some?
    {
      assert VnodeInv(vnodes[p]);
      hide NamesInv, Coupled, ListOk;
      var s := Now().Put(p, vnodes[p].(rcnt := vnodes[p].rcnt - 1));
      PutKeeps(Now(), p, vnodes[p].(rcnt := vnodes[p].rcnt - 1));
      MoveKeeps(s, p, Used);
      FirstOf(s.Move(p, Used), Used);
    }

    method IncVnode(p: Ptr)
      requires Valid() && Good(Now()) && p in vnodes && vnodes[p].rcnt > 0
      modifies this
      ensures Valid() && Now() == Inc(old(Now()), p) && Good(Now())
      ensures Serves(old(Now()), IncStep(p), Done, Now())
    {
      IncKeeps(Now(), p);
      IncServes(Now(), p);
      hide Good, Inv, Valid, Serves;
      SetVnode(p, vnodes[p].(rcnt := vnodes[p].rcnt + 1));
    }

    /** remove_vnode and unremove_vnode. */
    method MarkVnode(id: Id, remove: bool) returns (o: Outcome)
      requires Valid() && Good(Now())
      modifies this
      ensures Valid() && (Now(), o) == Mark(old(Now()), id, remove) && Good(Now())
      ensures Serves(old(Now()), MarkStep(id, remove), o, Now())
    {
      MarkKeeps(Now(), id, remove);
      MarkServes(Now(), id, remove);
      hide Good, Coupled, NamesInv, ListsInv, Valid, Serves;
      if id !in index {
        return NoEntry;
      }
      Named(id);
      var p := index[id];
      if vnodes[p].rcnt == 0 {
        return NoEntry;
      }
      SetVnode(p, vnodes[p].(remove := remove));
      o := Done;
    }
  }
}
