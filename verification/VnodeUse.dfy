/** What the vnode table does for its users (kernel.c), name by name: who has how many references, whether the vnode is
    marked for removal, and what the file system keeps with it.  Lists and links do not show. */
module VnodeUses {
  import opened Lists
  import opened VnodeModel

  /** A vnode with a name; busy while a call into the file system is made for it. */
  datatype Use = Use(p: Ptr, busy: bool, refs: int, mark: bool, data: int)

  function UseOf(p: Ptr, vn: Vnode): Use {
    Use(p, vn.work != Nothing, vn.rcnt, vn.remove, vn.data)
  }

  /** The vnodes there are, by name. */
  ghost function Uses(s: Table): map<Id, Use> {
    map id | id in s.index && s.index[id] in s.vnodes :: UseOf(s.index[id], s.vnodes[s.index[id]])
  }

  /** The oldest unused vnode becomes busy to be given back: nobody has a reference to it, and it is not marked. */
  ghost predicate GivesBack(unused: seq<Ptr>, u: map<Id, Use>, o: Outcome, s': Table) {
    && unused != [] && o == Flush(unused[0]) && s'.used == unused[1..]
    && exists id :: id in u && u[id].p == unused[0] && u[id].refs == 0 && !u[id].busy && !u[id].mark
                    && Uses(s') == u[id := u[id].(busy := true)]
  }

  /** What a section answers, and what it does to the names in use and to the unused vnodes, oldest first. */
  ghost predicate Serves(s: Table, step: Step, o: Outcome, s': Table) {
    var u := Uses(s);
    match step
    case LoadStep(id) =>
      if id in u then
        if u[id].busy then o == Retry && s' == s
        else
          && o == Got(u[id].p) && Uses(s') == u[id := u[id].(refs := u[id].refs + 1)]
          && s'.used == if u[id].refs == 0 then Without(s.used, u[id].p) else s.used
      else if s.free != [] then
        && s'.used == s.used
        && if id.nsid in s.spaces then o == Read(s.free[0]) && Uses(s') == u[id := Use(s.free[0], true, 0, false, 0)]
           else o == NoEntry && Uses(s') == u
      else if s.used != [] then GivesBack(s.used, u, o, s')
      else o == NoVnode && s' == s
    case ReadDoneStep(p, ok, data) =>
      && s'.used == s.used
      && exists id :: id in u && u[id].p == p && u[id].busy
                      && Uses(s') == if ok then u[id := Use(p, false, 1, false, data)] else u - {id}
    case FreedStep(p) =>
      s'.used == s.used && exists id :: id in u && u[id].p == p && u[id].busy && Uses(s') == u - {id}
    case NewStep(id, data) =>
      if s.free != [] then o == Done && s'.used == s.used && id !in u && Uses(s') == u[id := Use(s.free[0], false, 1, false, data)]
      else if s.used != [] then GivesBack(s.used, u, o, s')
      else o == NoVnode && s' == s
    case RenewedStep(p, id, data) =>
      && o == Done && s'.used == s.used
      && exists j :: j in u && u[j].p == p && u[j].busy && Uses(s') == (u - {j})[id := Use(p, false, 1, false, data)]
    case DecStep(p) =>
      exists id :: id in u && u[id].p == p && u[id].refs > 0 && !u[id].busy && Drops(s, p, id, u, o, s')
    case IncStep(p) =>
      s'.used == s.used && exists id :: id in u && u[id].p == p && u[id].refs > 0 && Uses(s') == u[id := u[id].(refs := u[id].refs + 1)]
    case MarkStep(id, remove) =>
      && s'.used == s.used
      && if id in u && u[id].refs > 0 then o == Done && Uses(s') == u[id := u[id].(mark := remove)]
         else o == NoEntry && s' == s
  }

  /** A reference to p is dropped.  If it is the last one, the vnode is removed if marked; else it joins the unused, and
      if there are too many of these now, the oldest is given back. */
  ghost predicate Drops(s: Table, p: Ptr, id: Id, u: map<Id, Use>, o: Outcome, s': Table)
    requires id in u
  {
    var u' := u[id := u[id].(refs := u[id].refs - 1)];
    if u[id].refs > 1 then o == Done && Uses(s') == u' && s'.used == s.used
    else if u[id].mark then o == Remove(p) && Uses(s') == u'[id := u'[id].(busy := true)] && s'.used == s.used
    else if |s.used| < s.maxUsed then o == Done && Uses(s') == u' && s'.used == s.used + [p]
    else GivesBack(s.used + [p], u', o, s')
  }

  /** The answer a section gives its thread. */
  function Answer(s: Table, step: Step): Outcome
    requires Inv(s) && Enabled(s, step)
  {
    match step
    case LoadStep(id) => Load(s, id).1
    case NewStep(id, data) => New(s, id, data).1
    case RenewedStep(p, id, data) => Renewed(s, p, id, data).1
    case DecStep(p) => Dec(s, p).1
    case MarkStep(id, remove) => Mark(s, id, remove).1
    case _ => Done
  }

  // ---- what changes do to the uses

  lemma NamedUse(s: Table, p: Ptr)
    requires NamesInv(s) && p in s.vnodes && s.vnodes[p].name.Some?
    ensures s.vnodes[p].name.value in Uses(s) && Uses(s)[s.vnodes[p].name.value] == UseOf(p, s.vnodes[p])
  {
    hide SpaceOk;
  }

  lemma UseIs(s: Table, id: Id)
    requires NamesInv(s)
    ensures id in Uses(s) <==> id in s.index
    ensures id in s.index ==> s.index[id] in s.vnodes && s.vnodes[s.index[id]].name == Some(id)
                              && Uses(s)[id] == UseOf(s.index[id], s.vnodes[s.index[id]])
  {
    hide SpaceOk;
  }

  /** One vnode changes. */
  lemma UsesPut(s: Table, t: Table, p: Ptr, vn: Vnode)
    requires NamesInv(s) && p in s.vnodes && s.vnodes[p].name.Some?
    requires t.index == s.index && t.vnodes == s.vnodes[p := vn]
    ensures Uses(t) == Uses(s)[s.vnodes[p].name.value := UseOf(p, vn)]
  {
    hide SpaceOk;
  }

  /** One vnode, without a name, gets one. */
  lemma UsesName(s: Table, t: Table, p: Ptr, vn: Vnode, id: Id)
    requires NamesInv(s) && p in s.vnodes && s.vnodes[p].name == None && id !in s.index
    requires t.index == s.index[id := p] && t.vnodes == s.vnodes[p := vn]
    ensures id !in Uses(s) && Uses(t) == Uses(s)[id := UseOf(p, vn)]
  {
    hide SpaceOk;
  }

  /** One vnode loses its name. */
  lemma UsesClear(s: Table, t: Table, p: Ptr, vn: Vnode)
    requires NamesInv(s) && p in s.vnodes && s.vnodes[p].name.Some?
    requires t.index == s.index - {s.vnodes[p].name.value} && t.vnodes == s.vnodes[p := vn]
    ensures Uses(t) == Uses(s) - {s.vnodes[p].name.value}
  {
    hide SpaceOk;
  }

  /** The names and what is kept with them do not depend on the lists. */
  lemma UsesSame(s: Table, t: Table, p: Ptr, w: Which)
    requires p in s.vnodes && t.index == s.index && t.vnodes == s.vnodes[p := s.vnodes[p].(inlist := w)]
    ensures Uses(t) == Uses(s)
  {
  }

  /** The unused vnodes after a move. */
  lemma MoveUsed(s: Table, p: Ptr, w: Which)
    requires p in s.vnodes
    ensures var rest := if s.vnodes[p].inlist == Used then Without(s.used, p) else s.used;
      s.Move(p, w).used == if w == Used then rest + [p] else rest
  {
  }

  lemma EvictServes(s: Table, work: Work)
    requires ListsInv(s) && NamesInv(s) && s.used != [] && work != Nothing && forall p :: p in s.vnodes ==> VnodeInv(s.vnodes[p])
    ensures s.used[0] in s.vnodes && s.vnodes[s.used[0]].name.Some?
    ensures GivesBack(s.used, Uses(s), Flush(s.used[0]), Evict(s, work))
  {
    EvictShape(s, work);
    var p := s.used[0];
    var vn := s.vnodes[p].(inlist := Locked, work := work);
    var id := s.vnodes[p].name.value;
    MoveUsed(s, p, Locked);
    assert Evict(s, work).used == s.used[1..];
    hide ListsInv, NamesInv, Evict;
    NamedUse(s, p);
    UsesPut(s, Evict(s, work), p, vn);
    assert UseOf(p, vn) == Uses(s)[id].(busy := true);
  }

  lemma LoadServes(s: Table, id: Id)
    requires Good(s)
    ensures Serves(s, LoadStep(id), Load(s, id).1, Load(s, id).0)
  {
    UseIs(s, id);
    hide ListsInv, NamesInv, Coupled, Uses;
    if id in s.index {
      HitServes(s, id);
    } else if s.free != [] {
      FreshServes(s, id);
    } else if s.used != [] {
      EvictServes(s, Releasing);
    }
  }

  lemma HitServes(s: Table, id: Id)
    requires Good(s) && id in s.index
    ensures Serves(s, LoadStep(id), Load(s, id).1, Load(s, id).0)
  {
    hide Good, Inv, ListsInv, NamesInv, Uses, GivesBack, Drops, Table.Move;
    IndexUse(s, id);
    var p := s.index[id];
    var vn := s.vnodes[p].(rcnt := s.vnodes[p].rcnt + 1);
    if s.vnodes[p].work == Nothing && s.vnodes[p].rcnt == 0 {
      HitUnused(s, p, vn);
    } else if s.vnodes[p].work == Nothing {
      UsesPut(s, s.Put(p, vn), p, vn);
    }
  }

  /** What there is to know of a name. */
  lemma IndexUse(s: Table, id: Id)
    requires Good(s)
    ensures Inv(s) && ListsInv(s) && NamesInv(s) && (id in Uses(s) <==> id in s.index)
    ensures id in s.index ==>
      var p := s.index[id];
      && p in s.vnodes && s.vnodes[p].name == Some(id) && VnodeInv(s.vnodes[p]) && Uses(s)[id] == UseOf(p, s.vnodes[p])
  {
    UseIs(s, id);
    if id in s.index { assert VnodeInv(s.vnodes[s.index[id]]); }
    hide ListsInv, NamesInv, Coupled, Uses;
  }

  /** What there is to know of a vnode that is used or busy. */
  lemma LockedUse(s: Table, p: Ptr)
    requires Good(s) && p in s.vnodes && (s.vnodes[p].rcnt > 0 || s.vnodes[p].work != Nothing)
    ensures Inv(s) && ListsInv(s) && NamesInv(s) && VnodeInv(s.vnodes[p]) && s.vnodes[p].inlist == Locked
    ensures s.vnodes[p].name.value in Uses(s) && Uses(s)[s.vnodes[p].name.value] == UseOf(p, s.vnodes[p])
  {
    assert VnodeInv(s.vnodes[p]);
    NamedUse(s, p);
    hide ListsInv, NamesInv, Coupled, Uses;
  }

  lemma HitUnused(s: Table, p: Ptr, vn: Vnode)
    requires ListsInv(s) && NamesInv(s) && p in s.vnodes && s.vnodes[p].name.Some? && s.vnodes[p].inlist == Used
    requires vn == s.vnodes[p].(rcnt := 1)
    ensures var t := s.Put(p, vn).Move(p, Locked);
      t.used == Without(s.used, p) && Uses(t) == Uses(s)[s.vnodes[p].name.value := UseOf(p, vn)]
  {
    PutKeeps(s, p, vn);
    hide ListsInv, NamesInv, Uses, Table.Move;
    MoveKeeps(s.Put(p, vn), p, Locked);
    MoveUsed(s.Put(p, vn), p, Locked);
    UsesPut(s, s.Put(p, vn).Move(p, Locked), p, vn.(inlist := Locked));
  }

  lemma FreshServes(s: Table, id: Id)
    requires Good(s) && id !in s.index && s.free != []
    ensures Serves(s, LoadStep(id), Load(s, id).1, Load(s, id).0)
  {
    UseIs(s, id);
    FreshUses(s, id);
    hide Inv, Coupled, Load, Uses, GivesBack, Drops;
  }

  lemma FreshUses(s: Table, id: Id)
    requires Good(s) && id !in s.index && s.free != []
    ensures var r := Load(s, id);
      && r.0.used == s.used
      && if id.nsid in s.spaces then r.1 == Read(s.free[0]) && Uses(r.0) == Uses(s)[id := Use(s.free[0], true, 0, false, 0)]
         else r.1 == NoEntry && Uses(r.0) == Uses(s)
  {
    TakeFree(s);
    hide Inv, ListsInv, NamesInv, Coupled, Table.Move, Table.Name, Uses;
    var t := s.Move(s.free[0], Locked);
    if id.nsid !in s.spaces {
      BackUses(t, s.free[0]);
    } else {
      ReadUses(t, s.free[0], id);
    }
  }

  /** The first free vnode is taken off its list. */
  lemma TakeFree(s: Table)
    requires Good(s) && s.free != []
    ensures s.free[0] in s.vnodes
    ensures var t := s.Move(s.free[0], Locked);
      && ListsInv(t) && NamesInv(t) && t.spaces == s.spaces && t.index == s.index && t.used == s.used && Uses(t) == Uses(s)
      && t.vnodes == s.vnodes[s.free[0] := Vnode(None, false, Nothing, Locked, 0, s.vnodes[s.free[0]].data)]
  {
    FirstOf(s, Free);
    var p := s.free[0];
    assert VnodeInv(s.vnodes[p]);
    MoveKeeps(s, p, Locked);
    MoveUsed(s, p, Locked);
    hide Inv, ListsInv, Coupled, Table.Move;
    UsesSame(s, s.Move(p, Locked), p, Locked);
    SameNames(s, s.Move(p, Locked));
    hide Uses, NamesInv;
  }

  lemma BackUses(t: Table, p: Ptr)
    requires ListsInv(t) && p in t.vnodes && t.vnodes[p].inlist == Locked
    ensures t.Move(p, Free).used == t.used && Uses(t.Move(p, Free)) == Uses(t)
  {
    MoveKeeps(t, p, Free);
    MoveUsed(t, p, Free);
    hide ListsInv, Uses, Table.Move;
    UsesSame(t, t.Move(p, Free), p, Free);
  }

  lemma ReadUses(t: Table, p: Ptr, id: Id)
    requires ListsInv(t) && NamesInv(t) && p in t.vnodes && id.nsid in t.spaces && id !in t.index
    requires t.vnodes[p].name == None && t.vnodes[p].inlist == Locked && !t.vnodes[p].remove && t.vnodes[p].rcnt == 0
    ensures var u := t.Name(p, id, Reading, 0, 0).Move(p, Locked);
      u.used == t.used && Uses(u) == Uses(t)[id := Use(p, true, 0, false, 0)]
  {
    NameKeeps(t, p, id, Reading, 0, 0);
    hide ListsInv, NamesInv, Table.Move, Table.Name, Uses;
    var u := t.Name(p, id, Reading, 0, 0);
    UsesName(t, u, p, u.vnodes[p], id);
    MoveKeeps(u, p, Locked);
    MoveUsed(u, p, Locked);
    UsesSame(u, u.Move(p, Locked), p, Locked);
  }

  lemma ReadDoneServes(s: Table, p: Ptr, ok: bool, data: int)
    requires Good(s) && p in s.vnodes && s.vnodes[p].work == Reading
    ensures Serves(s, ReadDoneStep(p, ok, data), Done, ReadDone(s, p, ok, data))
  {
    hide Good, Inv, ListsInv, NamesInv, Uses, Table.Clear, Table.Move;
    LockedUse(s, p);
    var vn := s.vnodes[p];
    if ok {
      UsesPut(s, ReadDone(s, p, ok, data), p, vn.(work := Nothing, rcnt := 1, data := data));
    } else {
      ClearServes(s, p);
    }
  }

  /** Clearing a vnode and freeing it. */
  lemma ClearServes(s: Table, p: Ptr)
    requires Good(s) && p in s.vnodes && s.vnodes[p].name.Some? && s.vnodes[p].work != Nothing
    ensures s.Clear(p).Move(p, Free).used == s.used
    ensures Uses(s.Clear(p).Move(p, Free)) == Uses(s) - {s.vnodes[p].name.value}
  {
    assert VnodeInv(s.vnodes[p]);
    ClearedInv(s, p);
    hide ListsInv, NamesInv, Coupled, Table.Clear, Table.Move, Uses;
    var t := s.Clear(p);
    UsesClear(s, t, p, t.vnodes[p]);
    MoveKeeps(t, p, Free);
    MoveUsed(t, p, Free);
    UsesSame(t, t.Move(p, Free), p, Free);
  }

  lemma FreedServes(s: Table, p: Ptr)
    requires Good(s) && p in s.vnodes && s.vnodes[p].work in {Releasing, Removing}
    ensures Serves(s, FreedStep(p), Done, Freed(s, p))
  {
    assert VnodeInv(s.vnodes[p]);
    NamedUse(s, p);
    ClearServes(s, p);
  }

  lemma FillServes(s: Table, p: Ptr, id: Id, data: int)
    requires ListsInv(s) && NamesInv(s) && p in s.vnodes && id.nsid in s.spaces && id !in s.index
    requires s.vnodes[p] == Vnode(None, false, Nothing, Locked, 0, s.vnodes[p].data)
    ensures var r := Fill(s, p, id, data);
      r.1 == Done && r.0.used == s.used && id !in Uses(s) && Uses(r.0) == Uses(s)[id := Use(p, false, 1, false, data)]
  {
    NameKeeps(s, p, id, Nothing, 1, data);
    hide ListsInv, NamesInv, Table.Name, Uses;
    var r := Fill(s, p, id, data);
    UsesName(s, r.0, p, r.0.vnodes[p], id);
  }

  lemma NewServes(s: Table, id: Id, data: int)
    requires Good(s) && Enabled(s, NewStep(id, data))
    ensures Serves(s, NewStep(id, data), New(s, id, data).1, New(s, id, data).0)
  {
    if s.free != [] {
      TakeFree(s);
      FillServes(s.Move(s.free[0], Locked), s.free[0], id, data);
    } else if s.used != [] {
      EvictServes(s, Renewing);
    }
    hide Inv, ListsInv, NamesInv, Coupled, Table.Move, Fill, Uses, GivesBack, Drops;
  }

  lemma RenewedServes(s: Table, p: Ptr, id: Id, data: int)
    requires Good(s) && Enabled(s, RenewedStep(p, id, data))
    ensures Serves(s, RenewedStep(p, id, data), Renewed(s, p, id, data).1, Renewed(s, p, id, data).0)
  {
    assert VnodeInv(s.vnodes[p]);
    ClearedInv(s, p);
    NamedUse(s, p);
    hide ListsInv, NamesInv, Coupled, Table.Clear, Fill, Uses;
    UsesClear(s, s.Clear(p), p, s.Clear(p).vnodes[p]);
    FillServes(s.Clear(p), p, id, data);
  }

  lemma DecServes(s: Table, p: Ptr)
    requires Good(s) && p in s.vnodes && s.vnodes[p].rcnt > 0
    ensures Serves(s, DecStep(p), Dec(s, p).1, Dec(s, p).0)
  {
    assert VnodeInv(s.vnodes[p]) && s.vnodes[p].inlist == Locked;
    NamedUse(s, p);
    DropServes(s, p);
    hide Inv, Coupled, Drops, Dec, Uses;
  }

  lemma DropServes(s: Table, p: Ptr)
    requires Good(s) && p in s.vnodes && s.vnodes[p].rcnt > 0
    ensures s.vnodes[p].name.Some? && s.vnodes[p].name.value in Uses(s)
    ensures Drops(s, p, s.vnodes[p].name.value, Uses(s), Dec(s, p).1, Dec(s, p).0)
  {
    hide Good, Inv, ListsInv, NamesInv, Uses, Evict, GivesBack, Table.Move;
    LockedUse(s, p);
    var vn := s.vnodes[p].(rcnt := s.vnodes[p].rcnt - 1);
    UsesPut(s, s.Put(p, vn), p, vn);
    if vn.rcnt > 0 {
      assert Dec(s, p) == (s.Put(p, vn), Done);
    } else if vn.remove {
      LastMarked(s, p, vn.(work := Removing));
    } else {
      Retires(s, p, vn);
    }
    hide Dec;
  }

  /** The last reference to a vnode that is not marked goes. */
  lemma Retires(s: Table, p: Ptr, vn: Vnode)
    requires Good(s) && p in s.vnodes && s.vnodes[p].rcnt == 1 && !s.vnodes[p].remove && vn == s.vnodes[p].(rcnt := 0)
    ensures var r := Dec(s, p);
      if |s.used| < s.maxUsed then r.1 == Done && Uses(r.0) == Uses(s.Put(p, vn)) && r.0.used == s.used + [p]
      else GivesBack(s.used + [p], Uses(s.Put(p, vn)), r.1, r.0)
  {
    assert VnodeInv(s.vnodes[p]);
    DecPut(s, p, vn);
    RetireUses(s.Put(p, vn), p);
    hide Inv, ListsInv, NamesInv, Coupled, Table.Move, Table.Put, Uses, GivesBack, Evict;
  }

  /** A vnode joins the unused. */
  lemma RetireUses(s: Table, p: Ptr)
    requires ListsInv(s) && NamesInv(s) && p in s.vnodes && s.vnodes[p].inlist == Locked && s.vnodes[p].name.Some?
    requires s.vnodes[p].work == Nothing
    requires VnodeInv(s.vnodes[p].(inlist := Used)) && forall q :: q in s.vnodes && q != p ==> VnodeInv(s.vnodes[q])
    ensures var t := s.Move(p, Used);
      && t.used == s.used + [p] && Uses(t) == Uses(s) && t.used[0] in t.vnodes && t.vnodes[t.used[0]].name.Some?
      && GivesBack(t.used, Uses(t), Flush(t.used[0]), Evict(t, Releasing))
  {
    hide ListsInv, NamesInv, Uses, Evict, Table.Move, GivesBack;
    var t := s.Move(p, Used);
    MoveKeeps(s, p, Used);
    MoveUsed(s, p, Used);
    SameNames(s, t);
    UsesSame(s, t, p, Used);
    EvictServes(t, Releasing);
  }

  lemma LastMarked(s: Table, p: Ptr, vn: Vnode)
    requires Good(s) && p in s.vnodes && s.vnodes[p].rcnt == 1 && s.vnodes[p].remove && vn == s.vnodes[p].(rcnt := 0, work := Removing)
    ensures s.vnodes[p].name.Some? && Dec(s, p).1 == Remove(p) && Dec(s, p).0.used == s.used
    ensures Uses(Dec(s, p).0) == Uses(s)[s.vnodes[p].name.value := UseOf(p, vn)]
  {
    hide Good, Inv, ListsInv, NamesInv, Uses, Evict, Table.Move;
    LockedUse(s, p);
    PutKeeps(s, p, vn);
    assert s.Put(p, s.vnodes[p].(rcnt := 0)).Put(p, vn) == s.Put(p, vn);
    MoveKeeps(s.Put(p, vn), p, Locked);
    MoveUsed(s.Put(p, vn), p, Locked);
    UsesPut(s, Dec(s, p).0, p, vn);
  }

  lemma IncServes(s: Table, p: Ptr)
    requires Good(s) && p in s.vnodes && s.vnodes[p].rcnt > 0
    ensures Serves(s, IncStep(p), Done, Inc(s, p))
  {
    hide Good, Inv, ListsInv, NamesInv, Uses;
    LockedUse(s, p);
    UsesPut(s, Inc(s, p), p, s.vnodes[p].(rcnt := s.vnodes[p].rcnt + 1));
  }

  lemma MarkServes(s: Table, id: Id, remove: bool)
    requires Good(s)
    ensures Serves(s, MarkStep(id, remove), Mark(s, id, remove).1, Mark(s, id, remove).0)
  {
    UseIs(s, id);
    hide ListsInv, Coupled;
    if id in s.index && s.vnodes[s.index[id]].rcnt != 0 {
      assert VnodeInv(s.vnodes[s.index[id]]);
      UsesPut(s, Mark(s, id, remove).0, s.index[id], s.vnodes[s.index[id]].(remove := remove));
    } else if id in s.index {
      assert VnodeInv(s.vnodes[s.index[id]]);
    }
  }

  /** Every section does what it should for its users. */
  lemma StepServes(s: Table, step: Step)
    requires Good(s) && Enabled(s, step)
    ensures Serves(s, step, Answer(s, step), Apply(s, step))
  {
    hide Inv, Coupled, Load, ReadDone, Freed, New, Renewed, Dec, Inc, Mark, Serves;
    match step
    case LoadStep(id) => LoadServes(s, id);
    case ReadDoneStep(p, ok, data) => ReadDoneServes(s, p, ok, data);
    case FreedStep(p) => FreedServes(s, p);
    case NewStep(id, data) => NewServes(s, id, data);
    case RenewedStep(p, id, data) => RenewedServes(s, p, id, data);
    case DecStep(p) => DecServes(s, p);
    case IncStep(p) => IncServes(s, p);
    case MarkStep(id, remove) => MarkServes(s, id, remove);
  }

  lemma HitIs(s: Table, id: Id)
    requires Good(s) && Load(s, id).1.Got?
    ensures var p := Load(s, id).1.p; var t := Load(s, id).0;
      && p in s.vnodes && s.vnodes[p].name == Some(id) && s.vnodes[p].work == Nothing
      && t.vnodes == s.vnodes[p := s.vnodes[p].(rcnt := s.vnodes[p].rcnt + 1, inlist := Locked)]
      && t.free == s.free && t.used == Without(s.used, p) && Elems(t.locked) == Elems(s.locked) + {p}
      && t.index == s.index && t.spaces == s.spaces && t.log == s.log
  {
    hide Good, Inv, ListsInv, NamesInv, Without;
    IndexUse(s, id);
    HitLists(s, s.index[id]);
  }

  lemma HitLists(s: Table, p: Ptr)
    requires ListsInv(s) && p in s.vnodes
    ensures s.vnodes[p].inlist == Used ==> p !in s.locked
    ensures s.vnodes[p].inlist == Locked ==> p in s.locked && Without(s.used, p) == s.used
  {
    WithoutElems(s.used, p);
    hide Distinct;
  }

  // ---- over a run

  predicate IsNamed(s: Table, p: Ptr, id: Id) {
    p in s.vnodes && s.vnodes[p].name == Some(id)
  }

  /** References to id handed out by a section, less those dropped. */
  function Handed(s: Table, step: Step, o: Outcome, id: Id): int {
    match step
    case LoadStep(j) => if j == id && o.Got? then 1 else 0
    case ReadDoneStep(p, ok, _) => if ok && IsNamed(s, p, id) then 1 else 0
    case FreedStep(_) => 0
    case NewStep(j, _) => if j == id && o == Done then 1 else 0
    case RenewedStep(_, j, _) => if j == id && o == Done then 1 else 0
    case DecStep(p) => if IsNamed(s, p, id) then -1 else 0
    case IncStep(p) => if IsNamed(s, p, id) then 1 else 0
    case MarkStep(_, _) => 0
  }

  /** The mark last set, until the vnode's life ends. */
  function MarkAfter(s: Table, step: Step, o: Outcome, id: Id, was: bool): bool {
    match step
    case MarkStep(j, remove) => if j == id && o == Done then remove else was
    case FreedStep(p) => if IsNamed(s, p, id) then false else was
    case _ => was
  }

  /** What was last read or given for id. */
  function DataAfter(s: Table, step: Step, o: Outcome, id: Id, was: int): int {
    match step
    case ReadDoneStep(p, ok, data) => if ok && IsNamed(s, p, id) then data else was
    case NewStep(j, data) => if j == id && o == Done then data else was
    case RenewedStep(_, j, data) => if j == id && o == Done then data else was
    case _ => was
  }

  /** A run, with the answers it gives. */
  ghost predicate Answered(ss: seq<Table>, steps: seq<Step>, outs: seq<Outcome>) {
    && Run(ss, steps) && |outs| == |steps|
    && forall i :: 0 <= i < |steps| && Inv(ss[i]) && Enabled(ss[i], steps[i]) ==> outs[i] == Answer(ss[i], steps[i])
  }

  function Held(ss: seq<Table>, steps: seq<Step>, outs: seq<Outcome>, id: Id): int
    requires |steps| == |outs| <= |ss|
  {
    if steps == [] then 0
    else
      var n := |steps| - 1;
      Held(ss, steps[..n], outs[..n], id) + Handed(ss[n], steps[n], outs[n], id)
  }

  predicate MarkOf(ss: seq<Table>, steps: seq<Step>, outs: seq<Outcome>, id: Id)
    requires |steps| == |outs| <= |ss|
  {
    if steps == [] then false
    else
      var n := |steps| - 1;
      MarkAfter(ss[n], steps[n], outs[n], id, MarkOf(ss, steps[..n], outs[..n], id))
  }

  function DataOf(ss: seq<Table>, steps: seq<Step>, outs: seq<Outcome>, id: Id): int
    requires |steps| == |outs| <= |ss|
  {
    if steps == [] then 0
    else
      var n := |steps| - 1;
      DataAfter(ss[n], steps[n], outs[n], id, DataOf(ss, steps[..n], outs[..n], id))
  }

  /** The names in use as a run's requests and answers account for them. */
  ghost predicate Accounted(u: map<Id, Use>, id: Id, held: int, mark: bool, data: int) {
    && held == (if id in u then u[id].refs else 0)
    && mark == (id in u && u[id].mark)
    && (id in u && !u[id].busy ==> u[id].data == data)
  }

  /** What is used is so by name; what is busy has no references. */
  ghost predicate Sound(s: Table, u: map<Id, Use>) {
    forall id :: id in u ==> IsNamed(s, u[id].p, id) && (u[id].busy ==> u[id].refs == 0)
  }

  lemma UsesSound(s: Table)
    requires Good(s)
    ensures Sound(s, Uses(s))
  {
    forall id | id in Uses(s) ensures IsNamed(s, Uses(s)[id].p, id) && (Uses(s)[id].busy ==> Uses(s)[id].refs == 0) {
      UseIs(s, id);
      assert VnodeInv(s.vnodes[s.index[id]]);
    }
  }

  /** A section runs, and how a name stands before. */
  ghost predicate Before(s: Table, step: Step, o: Outcome, s': Table, id: Id, held: int, mark: bool, data: int) {
    Good(s) && Enabled(s, step) && Serves(s, step, o, s') && Accounted(Uses(s), id, held, mark, data)
  }

  /** How it stands after that. */
  ghost predicate After(s: Table, step: Step, o: Outcome, s': Table, id: Id, held: int, mark: bool, data: int) {
    Accounted(Uses(s'), id, held + Handed(s, step, o, id), MarkAfter(s, step, o, id, mark), DataAfter(s, step, o, id, data))
  }

  /** A vnode that is given back changes no account. */
  lemma GiveAccounts(unused: seq<Ptr>, u: map<Id, Use>, o: Outcome, s': Table, id: Id, held: int, mark: bool, data: int)
    requires GivesBack(unused, u, o, s') && Accounted(u, id, held, mark, data)
    ensures Accounted(Uses(s'), id, held, mark, data) && o.Flush?
  {
    hide Uses;
  }

  lemma LoadAccounts(s: Table, step: Step, o: Outcome, s': Table, id: Id, held: int, mark: bool, data: int)
    requires step.LoadStep? && Before(s, step, o, s', id, held, mark, data)
    ensures After(s, step, o, s', id, held, mark, data)
  {
    hide Good, Enabled, Uses, GivesBack, Drops;
    if step.id !in Uses(s) && s.free == [] && s.used != [] {
      assert After(s, step, o, s', id, held, mark, data) by {
        GiveAccounts(s.used, Uses(s), o, s', id, held, mark, data);
      }
    }
  }

  /** The name of a busy vnode has no references; unless it is being removed, it is not marked. */
  lemma BusyUse(s: Table, p: Ptr)
    requires Good(s) && p in s.vnodes && s.vnodes[p].work != Nothing
    ensures s.vnodes[p].name.Some? && s.vnodes[p].name.value in Uses(s)
    ensures var id := s.vnodes[p].name.value; var e := Uses(s)[id];
      && e.p == p && e.busy && e.refs == 0 && (e.mark ==> s.vnodes[p].work == Removing)
      && forall j :: j in Uses(s) && Uses(s)[j].p == p ==> j == id
  {
    assert VnodeInv(s.vnodes[p]);
    UsesSound(s);
    NamedUse(s, p);
    hide Inv, Coupled, Uses;
  }

  lemma ReadAccounts(s: Table, step: Step, o: Outcome, s': Table, id: Id, held: int, mark: bool, data: int)
    requires step.ReadDoneStep? && Before(s, step, o, s', id, held, mark, data)
    ensures After(s, step, o, s', id, held, mark, data)
  {
    hide Good, Uses;
    BusyUse(s, step.p);
  }

  lemma FreedAccounts(s: Table, step: Step, o: Outcome, s': Table, id: Id, held: int, mark: bool, data: int)
    requires step.FreedStep? && Before(s, step, o, s', id, held, mark, data)
    ensures After(s, step, o, s', id, held, mark, data)
  {
    hide Good, Uses;
    BusyUse(s, step.p);
  }

  lemma NewAccounts(s: Table, step: Step, o: Outcome, s': Table, id: Id, held: int, mark: bool, data: int)
    requires step.NewStep? && Before(s, step, o, s', id, held, mark, data)
    ensures After(s, step, o, s', id, held, mark, data)
  {
    if s.free == [] && s.used != [] {
      GiveAccounts(s.used, Uses(s), o, s', id, held, mark, data);
    }
    hide Good, Uses, GivesBack;
  }

  lemma RenewAccounts(s: Table, step: Step, o: Outcome, s': Table, id: Id, held: int, mark: bool, data: int)
    requires step.RenewedStep? && Before(s, step, o, s', id, held, mark, data)
    ensures After(s, step, o, s', id, held, mark, data)
  {
    hide Good, Uses;
    BusyUse(s, step.p);
    IndexUse(s, step.id);
  }

  lemma DecAccounts(s: Table, step: Step, o: Outcome, s': Table, id: Id, held: int, mark: bool, data: int)
    requires step.DecStep? && Before(s, step, o, s', id, held, mark, data)
    ensures After(s, step, o, s', id, held, mark, data)
  {
    hide Enabled, Uses, Drops, Good;
    var u, p := Uses(s), step.p;
    var j := DecName(s, p, o, s');
    DropAccounts(s, p, j, u, o, s', id, held, mark, data);
    hide Serves, Accounted;
  }

  lemma DecName(s: Table, p: Ptr, o: Outcome, s': Table) returns (j: Id)
    requires Good(s) && Serves(s, DecStep(p), o, s')
    ensures IsNamed(s, p, j) && j in Uses(s) && Uses(s)[j].refs > 0 && !Uses(s)[j].busy && Drops(s, p, j, Uses(s), o, s')
  {
    hide Good, Uses, GivesBack, Drops;
    UsesSound(s);
    j :| j in Uses(s) && Uses(s)[j].p == p && Uses(s)[j].refs > 0 && !Uses(s)[j].busy && Drops(s, p, j, Uses(s), o, s');
  }

  lemma DropAccounts(s: Table, p: Ptr, j: Id, u: map<Id, Use>, o: Outcome, s': Table, id: Id, held: int, mark: bool, data: int)
    requires j in u && !u[j].busy && u[j].refs > 0 && Drops(s, p, j, u, o, s') && Accounted(u, id, held, mark, data)
    ensures Accounted(Uses(s'), id, held - (if j == id then 1 else 0), mark, data)
  {
    hide Uses, GivesBack;
    var u' := u[j := u[j].(refs := u[j].refs - 1)];
    assert Accounted(u', id, held - (if j == id then 1 else 0), mark, data);
    if u[j].refs == 1 && !u[j].mark && |s.used| >= s.maxUsed {
      GiveAccounts(s.used + [p], u', o, s', id, held - (if j == id then 1 else 0), mark, data);
    }
  }

  lemma IncAccounts(s: Table, step: Step, o: Outcome, s': Table, id: Id, held: int, mark: bool, data: int)
    requires step.IncStep? && Before(s, step, o, s', id, held, mark, data)
    ensures After(s, step, o, s', id, held, mark, data)
  {
    hide Good, Uses;
    UsesSound(s);
  }

  lemma MarkAccounts(s: Table, step: Step, o: Outcome, s': Table, id: Id, held: int, mark: bool, data: int)
    requires step.MarkStep? && Before(s, step, o, s', id, held, mark, data)
    ensures After(s, step, o, s', id, held, mark, data)
  {
    hide Good, Uses;
  }

  /** A section accounts for each name. */
  lemma StepAccounts(s: Table, step: Step, o: Outcome, s': Table, id: Id, held: int, mark: bool, data: int)
    requires Before(s, step, o, s', id, held, mark, data)
    ensures After(s, step, o, s', id, held, mark, data)
  {
    hide *;
    match step
    case LoadStep(_) => LoadAccounts(s, step, o, s', id, held, mark, data);
    case ReadDoneStep(_, _, _) => ReadAccounts(s, step, o, s', id, held, mark, data);
    case FreedStep(_) => FreedAccounts(s, step, o, s', id, held, mark, data);
    case NewStep(_, _) => NewAccounts(s, step, o, s', id, held, mark, data);
    case RenewedStep(_, _, _) => RenewAccounts(s, step, o, s', id, held, mark, data);
    case DecStep(_) => DecAccounts(s, step, o, s', id, held, mark, data);
    case IncStep(_) => IncAccounts(s, step, o, s', id, held, mark, data);
    case MarkStep(_, _) => MarkAccounts(s, step, o, s', id, held, mark, data);
  }

  /** Over every run, whatever the threads do: each vnode has just the references handed out and not dropped, is marked
      just if that was the last thing asked for since it came into use, and keeps what was last read or given for it.  A
      name not in use has no references. */
  lemma {:induction false} RunAccounts(ss: seq<Table>, steps: seq<Step>, outs: seq<Outcome>, id: Id)
    requires Answered(ss, steps, outs)
    ensures Accounted(Uses(ss[|steps|]), id, Held(ss, steps, outs, id), MarkOf(ss, steps, outs, id), DataOf(ss, steps, outs, id))
  {
    if steps == [] {
      assert Uses(ss[0]) == map[];
    } else {
      var n := |steps| - 1;
      AnsweredPrefix(ss, steps, outs, n);
      RunAccounts(ss[..n + 1], steps[..n], outs[..n], id);
      SamePast(ss, steps[..n], outs[..n], id);
      LastAccounts(ss, steps, outs, id, Held(ss, steps[..n], outs[..n], id), MarkOf(ss, steps[..n], outs[..n], id),
                   DataOf(ss, steps[..n], outs[..n], id));
      hide Answered, Uses, Accounted, Handed, MarkAfter, DataAfter;
    }
  }

  lemma AnsweredPrefix(ss: seq<Table>, steps: seq<Step>, outs: seq<Outcome>, n: nat)
    requires Answered(ss, steps, outs) && n <= |steps|
    ensures Answered(ss[..n + 1], steps[..n], outs[..n])
  {
    RunPrefix(ss, steps, n);
    hide Run, Inv, Enabled, Answer;
  }

  /** The last section of a run. */
  lemma LastAccounts(ss: seq<Table>, steps: seq<Step>, outs: seq<Outcome>, id: Id, held: int, mark: bool, data: int)
    requires Answered(ss, steps, outs) && steps != []
    requires Accounted(Uses(ss[|steps| - 1]), id, held, mark, data)
    ensures var n := |steps| - 1;
      Accounted(Uses(ss[n + 1]), id, held + Handed(ss[n], steps[n], outs[n], id),
                MarkAfter(ss[n], steps[n], outs[n], id, mark), DataAfter(ss[n], steps[n], outs[n], id, data))
  {
    var n := |steps| - 1;
    RunPrefix(ss, steps, n);
    RunKeeps(ss[..n + 1], steps[..n]);
    hide Inv, Coupled, Init, Enabled, Answer, Apply, Serves, Uses, Accounted, Handed, MarkAfter, DataAfter;
    StepServes(ss[n], steps[n]);
    StepAccounts(ss[n], steps[n], outs[n], ss[n + 1], id, held, mark, data);
  }

  /** Only the states the sections ran in matter. */
  lemma {:induction false} SamePast(ss: seq<Table>, steps: seq<Step>, outs: seq<Outcome>, id: Id)
    requires |steps| == |outs| < |ss|
    decreases |steps|
    ensures Held(ss[..|steps| + 1], steps, outs, id) == Held(ss, steps, outs, id)
    ensures MarkOf(ss[..|steps| + 1], steps, outs, id) == MarkOf(ss, steps, outs, id)
    ensures DataOf(ss[..|steps| + 1], steps, outs, id) == DataOf(ss, steps, outs, id)
  {
    if steps != [] {
      var n := |steps| - 1;
      SamePast(ss, steps[..n], outs[..n], id);
      SamePast(ss[..n + 2], steps[..n], outs[..n], id);
      assert ss[..n + 2][..n + 1] == ss[..n + 1];
      hide Handed, MarkAfter, DataAfter;
    }
  }
}
