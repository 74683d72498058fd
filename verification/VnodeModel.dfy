/** The vnode table (kernel.c) as a value, and its locked sections as functions: each section runs with vnlock held, and
    the calls into the file system (read_vnode, release_vnode, remove_vnode) happen between sections, when any other
    thread may run any other section.  Unmounting is not part of the model. */
module VnodeModel {
  import opened Lists

  type Ptr = nat

  datatype Option<T> = None | Some(value: T)

  /** A vnode's name: its name space and its number in it. */
  datatype Id = Id(nsid: int, vnid: int)

  datatype Which = Free | Used | Locked

  /** What the thread that set the busy flag is doing. */
  datatype Work = Nothing | Reading | Releasing | Renewing | Removing

  datatype Vnode = Vnode(name: Option<Id>, remove: bool, work: Work, inlist: Which, rcnt: int, data: int)

  /** Success of read_vnode or new_vnode, and the two callbacks that end a vnode's life. */
  datatype Event = Loaded(id: Id) | Released(id: Id, rcnt: int, remove: bool) | Removed(id: Id, rcnt: int, remove: bool)

  datatype Table = Table(
    vnodes: map<Ptr, Vnode>,
    free: seq<Ptr>, used: seq<Ptr>, locked: seq<Ptr>,   // from head to tail
    index: map<Id, Ptr>,                                // the skip list
    spaces: map<int, seq<Ptr>>,                         // the vnodes of each mounted name space
    maxUsed: nat,                                       // usdvnnum
    log: seq<Event>)
  {
    function List(w: Which): seq<Ptr> {
      match w case Free => free case Used => used case Locked => locked
    }

    function WithList(w: Which, l: seq<Ptr>): Table {
      match w case Free => this.(free := l) case Used => this.(used := l) case Locked => this.(locked := l)
    }

    function Put(p: Ptr, vn: Vnode): Table {
      this.(vnodes := vnodes[p := vn])
    }

    /** move_vnode: off its list and to the tail of another. */
    function Move(p: Ptr, w: Which): Table
      requires p in vnodes
    {
      var s := WithList(vnodes[p].inlist, Without(List(vnodes[p].inlist), p));
      s.WithList(w, s.List(w) + [p]).Put(p, vnodes[p].(inlist := w))
    }

    /** clear_vnode: out of the index and of its name space, and blank. */
    function Clear(p: Ptr): Table
      requires p in vnodes && vnodes[p].name.Some?
    {
      var id := vnodes[p].name.value;
      var s := if id.nsid in spaces then this.(spaces := spaces[id.nsid := Without(spaces[id.nsid], p)]) else this;
      s.(index := index - {id}).Put(p, Vnode(None, false, Nothing, vnodes[p].inlist, 0, 0))
    }

    /** Naming a vnode and sort_vnode: an entry that is already in the index stays there. */
    function Name(p: Ptr, id: Id, work: Work, rcnt: int, data: int): Table
      requires p in vnodes && id.nsid in spaces
    {
      this.(index := if id in index then index else index[id := p], spaces := spaces[id.nsid := [p] + spaces[id.nsid]])
          .Put(p, vnodes[p].(name := Some(id), work := work, rcnt := rcnt, data := data))
    }

    function Log(e: Event): Table {
      this.(log := log + [e])
    }
  }

  // ---- the sections

  datatype Outcome = Got(p: Ptr) | Read(p: Ptr) | Flush(p: Ptr) | Remove(p: Ptr) | Done | Retry | NoEntry | NoVnode

  /** The head of the used list is busy until its release_vnode is over. */
  function Evict(s: Table, work: Work): Table
    requires s.used != [] && s.used[0] in s.vnodes && s.vnodes[s.used[0]].name.Some?
  {
    var p := s.used[0];
    var vn := s.vnodes[p];
    s.Move(p, Locked).Put(p, vn.(inlist := Locked, work := work)).Log(Released(vn.name.value, vn.rcnt, vn.remove))
  }

  /** load_vnode up to the point where it has the vnode or must let go of vnlock. */
  function Load(s: Table, id: Id): (Table, Outcome)
    requires Inv(s)
  {
    if id in s.index then
      var p := s.index[id];
      var vn := s.vnodes[p];
      if vn.work != Nothing then (s, Retry)
      else
        var s1 := s.Put(p, vn.(rcnt := vn.rcnt + 1));
        (if vn.rcnt == 0 then s1.Move(p, Locked) else s1, Got(p))
    else if s.free != [] then
      var p := s.free[0];
      if id.nsid !in s.spaces then (s.Move(p, Locked).Move(p, Free), NoEntry)
      else (s.Move(p, Locked).Name(p, id, Reading, 0, 0).Move(p, Locked), Read(p))
    else if s.used != [] then (Evict(s, Releasing), Flush(s.used[0]))
    else (s, NoVnode)
  }

  /** After read_vnode. */
  function ReadDone(s: Table, p: Ptr, ok: bool, data: int): Table
    requires Inv(s) && p in s.vnodes && s.vnodes[p].work == Reading
  {
    var vn := s.vnodes[p];
    if ok then s.Put(p, vn.(work := Nothing, rcnt := 1, data := data)).Log(Loaded(vn.name.value))
    else s.Clear(p).Move(p, Free)
  }

  /** After release_vnode or remove_vnode: the vnode is free. */
  function Freed(s: Table, p: Ptr): Table
    requires Inv(s) && p in s.vnodes && s.vnodes[p].work in {Releasing, Removing}
  {
    s.Clear(p).Move(p, Free)
  }

  /** The last part of new_vnode, with p on no name. */
  function Fill(s: Table, p: Ptr, id: Id, data: int): (Table, Outcome)
    requires p in s.vnodes
  {
    if id.nsid !in s.spaces then (s, NoEntry)
    else (s.Name(p, id, Nothing, 1, data).Log(Loaded(id)), Done)
  }

  function New(s: Table, id: Id, data: int): (Table, Outcome)
    requires Inv(s)
  {
    if s.free != [] then Fill(s.Move(s.free[0], Locked), s.free[0], id, data)
    else if s.used != [] then (Evict(s, Renewing), Flush(s.used[0]))
    else (s, NoVnode)
  }

  /** new_vnode after the release_vnode of the vnode it takes over. */
  function Renewed(s: Table, p: Ptr, id: Id, data: int): (Table, Outcome)
    requires Inv(s) && p in s.vnodes && s.vnodes[p].work == Renewing
  {
    Fill(s.Clear(p), p, id, data)
  }

  /** dec_vnode up to the point where a callback is due. */
  function Dec(s: Table, p: Ptr): (Table, Outcome)
    requires Inv(s) && p in s.vnodes && s.vnodes[p].rcnt > 0
  {
    var vn := s.vnodes[p].(rcnt := s.vnodes[p].rcnt - 1);
    var s1 := s.Put(p, vn);
    if vn.rcnt > 0 then (s1, Done)
    else if vn.remove then
      (s1.Put(p, vn.(work := Removing)).Move(p, Locked).Log(Removed(vn.name.value, vn.rcnt, vn.remove)), Remove(p))
    else
      var s2 := s1.Move(p, Used);
      if |s2.used| > s.maxUsed then (Evict(s2, Releasing), Flush(s2.used[0])) else (s2, Done)
  }

  function Inc(s: Table, p: Ptr): Table
    requires p in s.vnodes
  {
    s.Put(p, s.vnodes[p].(rcnt := s.vnodes[p].rcnt + 1))
  }

  /** remove_vnode and unremove_vnode. */
  function Mark(s: Table, id: Id, remove: bool): (Table, Outcome)
    requires Inv(s)
  {
    if id !in s.index || s.vnodes[s.index[id]].rcnt == 0 then (s, NoEntry)
    else (s.Put(s.index[id], s.vnodes[s.index[id]].(remove := remove)), Done)
  }

  // ---- the invariant

  /** What a vnode on each list looks like. */
  predicate VnodeInv(vn: Vnode) {
    match vn.inlist
    case Free => vn.name == None && vn.rcnt == 0 && vn.work == Nothing && !vn.remove
    case Used => vn.name.Some? && vn.rcnt == 0 && vn.work == Nothing && !vn.remove
    case Locked =>
      && vn.name.Some? && vn.rcnt >= 0 && (vn.rcnt > 0 <==> vn.work == Nothing)
      && (vn.work == Removing ==> vn.remove) && (vn.work in {Reading, Releasing, Renewing} ==> !vn.remove)
  }

  ghost predicate ListOk(vnodes: map<Ptr, Vnode>, l: seq<Ptr>, w: Which) {
    Distinct(l) && forall p :: p in l <==> p in vnodes && vnodes[p].inlist == w
  }

  /** Each vnode is on just the list it says. */
  ghost predicate ListsInv(s: Table) {
    ListOk(s.vnodes, s.free, Free) && ListOk(s.vnodes, s.used, Used) && ListOk(s.vnodes, s.locked, Locked)
  }

  predicate Belongs(vn: Vnode, nsid: int) {
    vn.name.Some? && vn.name.value.nsid == nsid
  }

  ghost predicate SpaceOk(vnodes: map<Ptr, Vnode>, l: seq<Ptr>, nsid: int) {
    Distinct(l) && forall p :: p in l <==> p in vnodes && Belongs(vnodes[p], nsid)
  }

  ghost predicate IndexOk(vnodes: map<Ptr, Vnode>, index: map<Id, Ptr>) {
    && (forall p :: p in vnodes && vnodes[p].name.Some? ==> vnodes[p].name.value in index && index[vnodes[p].name.value] == p)
    && (forall id :: id in index ==> index[id] in vnodes && vnodes[index[id]].name == Some(id))
  }

  /** The index and the name spaces have just the named vnodes. */
  ghost predicate NamesInv(s: Table) {
    && IndexOk(s.vnodes, s.index)
    && (forall n :: n in s.spaces ==> SpaceOk(s.vnodes, s.spaces[n], n))
    && (forall p :: p in s.vnodes && s.vnodes[p].name.Some? ==> s.vnodes[p].name.value.nsid in s.spaces)
  }

  ghost predicate Inv(s: Table) {
    && ListsInv(s) && NamesInv(s) && |s.used| <= s.maxUsed
    && (forall p :: p in s.vnodes ==> VnodeInv(s.vnodes[p]))
  }

  // ---- what the building blocks keep

  lemma ListKeeps(vnodes: map<Ptr, Vnode>, p: Ptr, w: Which, l: seq<Ptr>, m: Which)
    requires p in vnodes && ListOk(vnodes, l, m)
    ensures var vnodes' := vnodes[p := vnodes[p].(inlist := w)];
      && (vnodes[p].inlist != m && w != m ==> ListOk(vnodes', l, m))
      && (vnodes[p].inlist != m && w == m ==> ListOk(vnodes', l + [p], m))
      && (vnodes[p].inlist == m && w != m ==> ListOk(vnodes', Without(l, p), m) && |Without(l, p)| == |l| - 1)
      && (vnodes[p].inlist == m && w == m ==> ListOk(vnodes', Without(l, p) + [p], m) && |Without(l, p)| == |l| - 1)
  {
    WithoutElems(l, p);
    DistinctJoin(p, Without(l, p));
    if p !in l { DistinctJoin(p, l); }
    hide Distinct, Without;
  }

  lemma MoveKeeps(s: Table, p: Ptr, w: Which)
    requires ListsInv(s) && p in s.vnodes
    ensures ListsInv(s.Move(p, w))
    ensures s.Move(p, w).vnodes == s.vnodes[p := s.vnodes[p].(inlist := w)]
    ensures s.Move(p, w).index == s.index && s.Move(p, w).spaces == s.spaces
    ensures s.Move(p, w).log == s.log && s.Move(p, w).maxUsed == s.maxUsed
    ensures |s.Move(p, w).used| == |s.used| - (if s.vnodes[p].inlist == Used then 1 else 0) + (if w == Used then 1 else 0)
    ensures |s.Move(p, w).List(w)| > 0
  {
    hide ListOk, Without;
    ListKeeps(s.vnodes, p, w, s.free, Free);
    ListKeeps(s.vnodes, p, w, s.used, Used);
    ListKeeps(s.vnodes, p, w, s.locked, Locked);
  }

  lemma PutKeeps(s: Table, p: Ptr, vn: Vnode)
    requires p in s.vnodes && vn.inlist == s.vnodes[p].inlist
    ensures ListsInv(s) ==> ListsInv(s.Put(p, vn))
    ensures NamesInv(s) && vn.name == s.vnodes[p].name ==> NamesInv(s.Put(p, vn))
  {
    if ListsInv(s) {
      ListsStay(s, p, vn, s.Put(p, vn));
    }
    if NamesInv(s) && vn.name == s.vnodes[p].name {
      NamesStay(s, p, vn);
    }
    hide ListsInv, NamesInv;
  }

  lemma NamesStay(s: Table, p: Ptr, vn: Vnode)
    requires NamesInv(s) && p in s.vnodes && vn.name == s.vnodes[p].name
    ensures NamesInv(s.Put(p, vn))
  {
    hide Distinct;
  }

  /** The names do not depend on the lists. */
  lemma SameNames(s: Table, t: Table)
    requires NamesInv(s) && t.index == s.index && t.spaces == s.spaces && t.vnodes.Keys == s.vnodes.Keys
    requires forall p :: p in s.vnodes ==> t.vnodes[p].name == s.vnodes[p].name
    ensures NamesInv(t)
  {
    hide Distinct;
  }

  /** Changing vnode p to vn, its space's list changing along. */
  lemma SpaceKeeps(vnodes: map<Ptr, Vnode>, p: Ptr, vn: Vnode, l: seq<Ptr>, nsid: int)
    requires p in vnodes && SpaceOk(vnodes, l, nsid)
    ensures Belongs(vnodes[p], nsid) && !Belongs(vn, nsid) ==> SpaceOk(vnodes[p := vn], Without(l, p), nsid)
    ensures !Belongs(vnodes[p], nsid) && Belongs(vn, nsid) ==> SpaceOk(vnodes[p := vn], [p] + l, nsid)
    ensures Belongs(vnodes[p], nsid) == Belongs(vn, nsid) ==> SpaceOk(vnodes[p := vn], l, nsid)
  {
    WithoutElems(l, p);
    if p !in l { DistinctJoin(p, l); }
    hide Distinct, Without, Belongs;
  }

  lemma ListStays(vnodes: map<Ptr, Vnode>, p: Ptr, vn: Vnode, l: seq<Ptr>, w: Which)
    requires p in vnodes && ListOk(vnodes, l, w) && vn.inlist == vnodes[p].inlist
    ensures ListOk(vnodes[p := vn], l, w)
  {
    hide Distinct;
  }

  lemma ListsStay(s: Table, p: Ptr, vn: Vnode, t: Table)
    requires ListsInv(s) && p in s.vnodes && vn.inlist == s.vnodes[p].inlist
    requires t.vnodes == s.vnodes[p := vn] && t.free == s.free && t.used == s.used && t.locked == s.locked
    ensures ListsInv(t)
  {
    hide ListOk;
    ListStays(s.vnodes, p, vn, s.free, Free);
    ListStays(s.vnodes, p, vn, s.used, Used);
    ListStays(s.vnodes, p, vn, s.locked, Locked);
  }

  lemma ClearKeeps(s: Table, p: Ptr)
    requires ListsInv(s) && NamesInv(s) && p in s.vnodes && s.vnodes[p].name.Some?
    ensures ListsInv(s.Clear(p)) && NamesInv(s.Clear(p))
    ensures s.Clear(p).vnodes == s.vnodes[p := Vnode(None, false, Nothing, s.vnodes[p].inlist, 0, 0)]
    ensures s.Clear(p).index == s.index - {s.vnodes[p].name.value}
    ensures s.Clear(p).used == s.used && s.Clear(p).log == s.log && s.Clear(p).maxUsed == s.maxUsed
    ensures s.Clear(p).spaces.Keys == s.spaces.Keys
  {
    var vn := Vnode(None, false, Nothing, s.vnodes[p].inlist, 0, 0);
    ListsStay(s, p, vn, s.Clear(p));
    ClearNames(s, p, vn);
    hide ListsInv, NamesInv, Without;
  }

  lemma ClearNames(s: Table, p: Ptr, vn: Vnode)
    requires NamesInv(s) && p in s.vnodes && s.vnodes[p].name.Some? && vn == Vnode(None, false, Nothing, s.vnodes[p].inlist, 0, 0)
    ensures NamesInv(s.Clear(p))
  {
    var t := s.Clear(p);
    ClearIndex(s, p, vn);
    hide SpaceOk, Without, IndexOk;
    forall n | n in t.spaces ensures SpaceOk(t.vnodes, t.spaces[n], n) {
      SpaceKeeps(s.vnodes, p, vn, s.spaces[n], n);
    }
  }

  lemma ClearIndex(s: Table, p: Ptr, vn: Vnode)
    requires IndexOk(s.vnodes, s.index) && p in s.vnodes && s.vnodes[p].name.Some? && vn.name == None
    ensures IndexOk(s.vnodes[p := vn], s.index - {s.vnodes[p].name.value})
  {
  }

  /** Naming a blank vnode keeps the table in order just if the name is new. */
  lemma NameKeeps(s: Table, p: Ptr, id: Id, work: Work, rcnt: int, data: int)
    requires ListsInv(s) && NamesInv(s) && p in s.vnodes && s.vnodes[p].name == None && id.nsid in s.spaces
    ensures ListsInv(s.Name(p, id, work, rcnt, data))
    ensures s.Name(p, id, work, rcnt, data).vnodes ==
      s.vnodes[p := s.vnodes[p].(name := Some(id), work := work, rcnt := rcnt, data := data)]
    ensures s.Name(p, id, work, rcnt, data).index == if id in s.index then s.index else s.index[id := p]
    ensures s.Name(p, id, work, rcnt, data).used == s.used && s.Name(p, id, work, rcnt, data).log == s.log
    ensures s.Name(p, id, work, rcnt, data).maxUsed == s.maxUsed
    ensures NamesInv(s.Name(p, id, work, rcnt, data)) <==> id !in s.index
  {
    var vn := s.vnodes[p].(name := Some(id), work := work, rcnt := rcnt, data := data);
    var t := s.Name(p, id, work, rcnt, data);
    ListsStay(s, p, vn, t);
    NameIndex(s, p, id, vn);
    hide ListsInv, SpaceOk, IndexOk;
    if id !in s.index {
      forall n | n in t.spaces ensures SpaceOk(t.vnodes, t.spaces[n], n) {
        SpaceKeeps(s.vnodes, p, vn, s.spaces[n], n);
      }
    }
  }

  /** A name that is in the index already stays that of the other vnode. */
  lemma NameIndex(s: Table, p: Ptr, id: Id, vn: Vnode)
    requires IndexOk(s.vnodes, s.index) && p in s.vnodes && s.vnodes[p].name == None && vn.name == Some(id)
    ensures IndexOk(s.vnodes[p := vn], if id in s.index then s.index else s.index[id := p]) <==> id !in s.index
  {
    var vnodes := s.vnodes[p := vn];
    if id in s.index {
      assert vnodes[p].name == Some(id) && s.index[id] != p;
    }
  }

  // ---- the life of a vnode

  /** Is the vnode of this name loaded after log? */
  function LoadedNow(log: seq<Event>, id: Id): bool {
    if log == [] then false
    else if log[|log| - 1].id == id then log[|log| - 1].Loaded?
    else LoadedNow(log[..|log| - 1], id)
  }

  /** A vnode is loaded only if it is not; it is released or removed only if it is, with no references left, and
      removed just if it is marked so. */
  predicate MayFollow(log: seq<Event>, e: Event) {
    match e
    case Loaded(id) => !LoadedNow(log, id)
    case Released(id, rcnt, remove) => LoadedNow(log, id) && rcnt == 0 && !remove
    case Removed(id, rcnt, remove) => LoadedNow(log, id) && rcnt == 0 && remove
  }

  ghost predicate Legal(log: seq<Event>) {
    forall i :: 0 <= i < |log| ==> MayFollow(log[..i], log[i])
  }

  lemma LegalExtend(log: seq<Event>, e: Event)
    requires Legal(log) && MayFollow(log, e)
    ensures Legal(log + [e])
    ensures forall id :: LoadedNow(log + [e], id) == if id == e.id then e.Loaded? else LoadedNow(log, id)
  {
    var l := log + [e];
    assert l[..|log|] == log && l[|log|] == e;
    forall i | 0 <= i < |l| ensures MayFollow(l[..i], l[i]) {
      if i < |log| { assert l[..i] == log[..i] && MayFollow(log[..i], log[i]); }
    }
  }

  /** Between two events of a vnode with none in between, just one is a load. */
  lemma {:induction false} Alternates(log: seq<Event>, i: nat, j: nat)
    requires Legal(log) && i < j < |log| && log[i].id == log[j].id
    requires forall m :: i < m < j ==> log[m].id != log[i].id
    ensures log[i].Loaded? <==> !log[j].Loaded?
  {
    LastEvent(log, i, j);
    assert MayFollow(log[..j], log[j]);
  }

  lemma {:induction false} LastEvent(log: seq<Event>, i: nat, j: nat)
    requires i < j <= |log| && forall m :: i < m < j ==> log[m].id != log[i].id
    ensures LoadedNow(log[..j], log[i].id) == log[i].Loaded?
  {
    assert log[..j][..j - 1] == log[..j - 1];
    if j > i + 1 {
      LastEvent(log, i, j - 1);
    }
  }

  /** Is there a vnode of this name that is neither being read nor on its way out? */
  predicate Live(s: Table, id: Id) {
    id in s.index && s.index[id] in s.vnodes && s.vnodes[s.index[id]].work == Nothing
  }

  ghost predicate Coupled(s: Table) {
    Legal(s.log) && forall id :: LoadedNow(s.log, id) <==> Live(s, id)
  }

  /** What holds whenever vnlock is free. */
  ghost predicate Good(s: Table) {
    Inv(s) && Coupled(s)
  }

  /** One vnode changes, and perhaps an event of it is logged. */
  lemma CoupledPut(s: Table, t: Table, p: Ptr, vn: Vnode, e: Option<Event>)
    requires Coupled(s) && IndexOk(s.vnodes, s.index) && p in s.vnodes && s.vnodes[p].name.Some?
    requires t.index == s.index && t.vnodes == s.vnodes[p := vn]
    requires t.log == if e.Some? then s.log + [e.value] else s.log
    requires e == None ==> (vn.work == Nothing <==> s.vnodes[p].work == Nothing)
    requires e.Some? ==> MayFollow(s.log, e.value) && e.value.id == s.vnodes[p].name.value
    requires e.Some? ==> (e.value.Loaded? <==> vn.work == Nothing)
    ensures Coupled(t)
  {
    hide LoadedNow, Legal, MayFollow;
    if e.Some? {
      LegalExtend(s.log, e.value);
    }
  }

  /** A vnode gets or loses its name, not being live before or after. */
  lemma CoupledName(s: Table, t: Table, p: Ptr, vn: Vnode, id: Id)
    requires Coupled(s) && p in s.vnodes && t.vnodes == s.vnodes[p := vn] && t.log == s.log
    requires t.index == s.index - {id} || (id !in s.index && t.index == s.index[id := p])
    requires id in t.index ==> vn.work != Nothing
    requires id in s.index ==> !Live(s, id)
    requires forall j :: j in s.index && s.index[j] == p ==> j == id
    ensures Coupled(t)
  {
    hide LoadedNow, Legal;
  }

  /** A vnode is named and at once live. */
  lemma CoupledLoad(s: Table, t: Table, p: Ptr, vn: Vnode, id: Id)
    requires Coupled(s) && p in s.vnodes && t.vnodes == s.vnodes[p := vn] && t.log == s.log + [Loaded(id)]
    requires id !in s.index && t.index == s.index[id := p] && vn.work == Nothing
    requires forall j :: j in s.index ==> s.index[j] != p
    ensures Coupled(t)
  {
    hide LoadedNow, Legal;
    LegalExtend(s.log, Loaded(id));
  }

  lemma CoupledSame(s: Table, t: Table)
    requires Coupled(s) && t.index == s.index && t.log == s.log && t.vnodes.Keys == s.vnodes.Keys
    requires forall p :: p in s.vnodes ==> t.vnodes[p].work == s.vnodes[p].work
    ensures Coupled(t)
  {
    hide LoadedNow, Legal;
  }

  // ---- every section keeps it

  lemma FirstOf(s: Table, w: Which)
    requires ListsInv(s) && s.List(w) != []
    ensures s.List(w)[0] in s.vnodes && s.vnodes[s.List(w)[0]].inlist == w
  {
    assert s.List(w)[0] in s.List(w);
  }

  lemma EvictShape(s: Table, work: Work)
    requires ListsInv(s) && NamesInv(s) && s.used != [] && forall p :: p in s.vnodes ==> VnodeInv(s.vnodes[p])
    ensures s.used[0] in s.vnodes && s.vnodes[s.used[0]].name.Some? && VnodeInv(s.vnodes[s.used[0]])
    ensures s.vnodes[s.used[0]].inlist == Used
    ensures ListsInv(Evict(s, work)) && NamesInv(Evict(s, work)) && Evict(s, work).index == s.index
    ensures Evict(s, work).vnodes == s.vnodes[s.used[0] := s.vnodes[s.used[0]].(inlist := Locked, work := work)]
    ensures |Evict(s, work).used| == |s.used| - 1 && Evict(s, work).maxUsed == s.maxUsed
  {
    hide ListOk, SpaceOk, IndexOk, ListsInv, NamesInv;
    FirstOf(s, Used);
    var p := s.used[0];
    var vn := s.vnodes[p];
    assert VnodeInv(vn);
    hide VnodeInv, Table.Move;
    var t := s.Move(p, Locked);
    MoveKeeps(s, p, Locked);
    SameNames(s, t);
    var vn' := vn.(inlist := Locked, work := work);
    PutKeeps(t, p, vn');
    OnlyLogged(t.Put(p, vn'), Released(vn.name.value, vn.rcnt, vn.remove));
  }

  lemma EvictKeeps(s: Table, work: Work)
    requires ListsInv(s) && NamesInv(s) && Coupled(s) && work in {Releasing, Renewing}
    requires |s.used| <= s.maxUsed + 1 && s.used != []
    requires forall p :: p in s.vnodes ==> VnodeInv(s.vnodes[p])
    ensures s.used[0] in s.vnodes && s.vnodes[s.used[0]].name.Some?
    ensures Good(Evict(s, work)) && Evict(s, work).vnodes[s.used[0]].work == work
  {
    EvictShape(s, work);
    var vn := s.vnodes[s.used[0]];
    hide ListsInv, LoadedNow, Legal, SpaceOk, Coupled;
    assert Live(s, vn.name.value);
    LiveLoaded(s, vn.name.value);
    CoupledPut(s, Evict(s, work), s.used[0], vn.(inlist := Locked, work := work),
               Some(Released(vn.name.value, vn.rcnt, vn.remove)));
  }

  lemma LiveLoaded(s: Table, id: Id)
    requires Coupled(s)
    ensures LoadedNow(s.log, id) <==> Live(s, id)
  {
  }

  /** Logging an event changes nothing else. */
  lemma OnlyLogged(s: Table, e: Event)
    ensures ListsInv(s) ==> ListsInv(s.Log(e))
    ensures NamesInv(s) ==> NamesInv(s.Log(e))
  {
    hide ListOk, IndexOk, SpaceOk;
  }

  lemma LoadKeeps(s: Table, id: Id)
    requires Good(s)
    ensures Good(Load(s, id).0)
  {
    hide ListOk, SpaceOk, LoadedNow, Legal, Coupled;
    if id in s.index {
      LoadHit(s, id);
    } else if s.free != [] {
      LoadFree(s, id);
    } else if s.used != [] {
      EvictKeeps(s, Releasing);
    }
  }

  lemma LoadHit(s: Table, id: Id)
    requires Good(s) && id in s.index
    ensures Good(Load(s, id).0)
  {
    hide ListOk, SpaceOk, LoadedNow, Legal;
    var p := s.index[id];
    var vn := s.vnodes[p];
    if vn.work == Nothing {
      var vn' := vn.(rcnt := vn.rcnt + 1);
      PutKeeps(s, p, vn');
      if vn.rcnt == 0 {
        MoveKeeps(s.Put(p, vn'), p, Locked);
        SameNames(s.Put(p, vn'), s.Put(p, vn').Move(p, Locked));
      }
    }
  }

  lemma LoadFree(s: Table, id: Id)
    requires Good(s) && id !in s.index && s.free != []
    ensures Good(Load(s, id).0)
  {
    hide ListsInv, NamesInv, ListOk, SpaceOk, Coupled;
    FirstOf(s, Free);
    var p := s.free[0];
    assert VnodeInv(s.vnodes[p]);
    hide Table.Move, Table.Name;
    var t := s.Move(p, Locked);
    MoveKeeps(s, p, Locked);
    SameNames(s, t);
    if id.nsid !in s.spaces {
      MoveKeeps(t, p, Free);
      SameNames(t, t.Move(p, Free));
      CoupledSame(s, t.Move(p, Free));
    } else {
      NameKeeps(t, p, id, Reading, 0, 0);
      var u := t.Name(p, id, Reading, 0, 0);
      MoveKeeps(u, p, Locked);
      SameNames(u, u.Move(p, Locked));
      Nameless(s, p);
      CoupledName(s, u.Move(p, Locked), p, u.Move(p, Locked).vnodes[p], id);
    }
  }

  lemma Nameless(s: Table, p: Ptr)
    requires NamesInv(s) && p in s.vnodes && s.vnodes[p].name == None
    ensures forall j :: j in s.index ==> s.index[j] != p
  {
    hide SpaceOk;
  }

  lemma ReadDoneKeeps(s: Table, p: Ptr, ok: bool, data: int)
    requires Good(s) && p in s.vnodes && s.vnodes[p].work == Reading
    ensures Good(ReadDone(s, p, ok, data))
  {
    hide ListsInv, ListOk, SpaceOk, Coupled, LoadedNow, Legal;
    var vn := s.vnodes[p];
    assert VnodeInv(vn);
    LiveLoaded(s, vn.name.value);
    if ok {
      var vn' := vn.(work := Nothing, rcnt := 1, data := data);
      PutKeeps(s, p, vn');
      OnlyLogged(s.Put(p, vn'), Loaded(vn.name.value));
      CoupledPut(s, s.Put(p, vn').Log(Loaded(vn.name.value)), p, vn', Some(Loaded(vn.name.value)));
    } else {
      ClearMove(s, p);
    }
  }

  /** A vnode that is not live may be cleared and freed. */
  lemma ClearMove(s: Table, p: Ptr)
    requires Good(s) && p in s.vnodes && s.vnodes[p].name.Some? && s.vnodes[p].work != Nothing
    ensures Good(s.Clear(p).Move(p, Free))
  {
    ClearedInv(s, p);
    hide ListsInv, NamesInv, Coupled, Table.Clear, Table.Move;
    assert VnodeInv(s.vnodes[p]);
    var t := s.Clear(p);
    MoveKeeps(t, p, Free);
    SameNames(t, t.Move(p, Free));
    CoupledSame(t, t.Move(p, Free));
  }

  lemma ClearedInv(s: Table, p: Ptr)
    requires Good(s) && p in s.vnodes && s.vnodes[p].name.Some? && s.vnodes[p].work != Nothing
    ensures ListsInv(s.Clear(p)) && NamesInv(s.Clear(p)) && Coupled(s.Clear(p))
    ensures s.Clear(p).vnodes == s.vnodes[p := Vnode(None, false, Nothing, Locked, 0, 0)]
    ensures s.Clear(p).index == s.index - {s.vnodes[p].name.value}
    ensures s.Clear(p).used == s.used && s.Clear(p).maxUsed == s.maxUsed && s.Clear(p).spaces.Keys == s.spaces.Keys
  {
    hide ListsInv, SpaceOk, Coupled, Table.Clear;
    assert VnodeInv(s.vnodes[p]);
    ClearKeeps(s, p);
    CoupledName(s, s.Clear(p), p, s.Clear(p).vnodes[p], s.vnodes[p].name.value);
  }

  lemma FreedKeeps(s: Table, p: Ptr)
    requires Good(s) && p in s.vnodes && s.vnodes[p].work in {Releasing, Removing}
    ensures Good(Freed(s, p))
  {
    assert VnodeInv(s.vnodes[p]);
    hide Good, Inv;
    ClearMove(s, p);
  }

  /** Filling in a blank vnode that is off the free list puts the table in order just if the name space is mounted
      and the name is new. */
  lemma FillKeeps(s: Table, p: Ptr, id: Id, data: int)
    requires ListsInv(s) && NamesInv(s) && Coupled(s) && |s.used| <= s.maxUsed
    requires p in s.vnodes && s.vnodes[p] == Vnode(None, false, Nothing, Locked, 0, s.vnodes[p].data)
    requires forall q :: q in s.vnodes && q != p ==> VnodeInv(s.vnodes[q])
    ensures Good(Fill(s, p, id, data).0) <==> id.nsid in s.spaces && id !in s.index
  {
    hide ListsInv, NamesInv, Coupled, Table.Name;
    if id.nsid !in s.spaces {
      assert !VnodeInv(s.vnodes[p]);
    } else {
      NameKeeps(s, p, id, Nothing, 1, data);
      var t := s.Name(p, id, Nothing, 1, data);
      OnlyLogged(t, Loaded(id));
      if id in s.index {
        LogNames(t, Loaded(id));
      } else {
        Nameless(s, p);
        CoupledLoad(s, t.Log(Loaded(id)), p, t.vnodes[p], id);
      }
    }
  }

  lemma LogNames(s: Table, e: Event)
    ensures NamesInv(s.Log(e)) == NamesInv(s)
  {
    hide SpaceOk, IndexOk;
  }

  /** new_vnode relies on its caller: it keeps the invariant just if the name space is mounted and the name is not in
      use.  For a name in use it reports success. */
  lemma NewKeeps(s: Table, id: Id, data: int)
    requires Good(s)
    ensures s.free != [] ==> (Good(New(s, id, data).0) <==> id.nsid in s.spaces && id !in s.index)
    ensures s.free == [] ==> Good(New(s, id, data).0)
    ensures s.free != [] && id.nsid in s.spaces ==> New(s, id, data).1 == Done
  {
    hide ListsInv, NamesInv, Coupled, Fill, Table.Move, Evict;
    if s.free != [] {
      FirstOf(s, Free);
      var p := s.free[0];
      assert VnodeInv(s.vnodes[p]);
      var t := s.Move(p, Locked);
      MoveKeeps(s, p, Locked);
      SameNames(s, t);
      CoupledSame(s, t);
      FillKeeps(t, p, id, data);
      if id.nsid in s.spaces { FillDone(t, p, id, data); }
    } else if s.used != [] {
      EvictKeeps(s, Renewing);
    }
  }

  lemma FillDone(s: Table, p: Ptr, id: Id, data: int)
    requires p in s.vnodes && id.nsid in s.spaces
    ensures Fill(s, p, id, data).1 == Done
  {
  }

  lemma RenewedKeeps(s: Table, p: Ptr, id: Id, data: int)
    requires Good(s) && p in s.vnodes && s.vnodes[p].work == Renewing
    ensures s.vnodes[p].name.Some?
    ensures Good(Renewed(s, p, id, data).0) <==>
      id.nsid in s.spaces && (id !in s.index || id == s.vnodes[p].name.value)
  {
    assert VnodeInv(s.vnodes[p]);
    hide ListsInv, NamesInv, Coupled, Fill, Table.Clear;
    ClearedInv(s, p);
    FillKeeps(s.Clear(p), p, id, data);
  }

  lemma DecKeeps(s: Table, p: Ptr)
    requires Good(s) && p in s.vnodes && s.vnodes[p].rcnt > 0
    ensures Good(Dec(s, p).0)
  {
    hide ListsInv, NamesInv, Coupled, Table.Move, Table.Put, Evict, LoadedNow, Legal;
    assert VnodeInv(s.vnodes[p]) && s.vnodes[p].inlist == Locked;
    var vn := s.vnodes[p].(rcnt := s.vnodes[p].rcnt - 1);
    DecPut(s, p, vn);
    var s1 := s.Put(p, vn);
    if vn.rcnt == 0 {
      if vn.remove {
        DecRemove(s, p);
      } else {
        MoveKeeps(s1, p, Used);
        SameNames(s1, s1.Move(p, Used));
        CoupledSame(s1, s1.Move(p, Used));
        if |s1.Move(p, Used).used| > s.maxUsed {
          EvictKeeps(s1.Move(p, Used), Releasing);
        }
      }
    }
  }

  lemma DecPut(s: Table, p: Ptr, vn: Vnode)
    requires Good(s) && p in s.vnodes && vn.inlist == s.vnodes[p].inlist && vn.name == s.vnodes[p].name
    requires vn.work == s.vnodes[p].work
    ensures ListsInv(s.Put(p, vn)) && NamesInv(s.Put(p, vn)) && Coupled(s.Put(p, vn))
    ensures s.Put(p, vn).vnodes == s.vnodes[p := vn] && s.Put(p, vn).used == s.used && s.Put(p, vn).maxUsed == s.maxUsed
    ensures s.Put(p, vn).index == s.index && s.Put(p, vn).log == s.log
  {
    hide ListsInv, NamesInv, Coupled;
    PutKeeps(s, p, vn);
    CoupledSame(s, s.Put(p, vn));
  }

  lemma DecRemove(s: Table, p: Ptr)
    requires Good(s) && p in s.vnodes && s.vnodes[p].rcnt == 1 && s.vnodes[p].remove
    ensures Good(Dec(s, p).0)
  {
    hide ListsInv, SpaceOk, Coupled, Table.Move, LoadedNow, Legal;
    assert VnodeInv(s.vnodes[p]);
    var vn := s.vnodes[p].(rcnt := 0, work := Removing);
    var e := Removed(vn.name.value, 0, vn.remove);
    var t := s.Put(p, s.vnodes[p].(rcnt := 0)).Put(p, vn);
    assert t == s.Put(p, vn);
    PutKeeps(s, p, vn);
    MoveKeeps(t, p, Locked);
    SameNames(t, t.Move(p, Locked));
    OnlyLogged(t.Move(p, Locked), e);
    assert Live(s, vn.name.value);
    LiveLoaded(s, vn.name.value);
    CoupledPut(s, t.Move(p, Locked).Log(e), p, vn, Some(e));
  }

  lemma IncKeeps(s: Table, p: Ptr)
    requires Good(s) && p in s.vnodes && s.vnodes[p].rcnt > 0
    ensures Good(Inc(s, p))
  {
    hide ListsInv, NamesInv, Coupled, Table.Put;
    assert VnodeInv(s.vnodes[p]);
    DecPut(s, p, s.vnodes[p].(rcnt := s.vnodes[p].rcnt + 1));
  }

  lemma MarkKeeps(s: Table, id: Id, remove: bool)
    requires Good(s)
    ensures Good(Mark(s, id, remove).0)
  {
    hide ListsInv, SpaceOk, Coupled, Table.Put;
    if id in s.index && s.vnodes[s.index[id]].rcnt != 0 {
      var p := s.index[id];
      assert VnodeInv(s.vnodes[p]);
      DecPut(s, p, s.vnodes[p].(remove := remove));
    }
  }

  // ---- runs

  datatype Step =
    | LoadStep(id: Id)
    | ReadDoneStep(p: Ptr, ok: bool, data: int)
    | FreedStep(p: Ptr)
    | NewStep(id: Id, data: int)
    | RenewedStep(p: Ptr, id: Id, data: int)
    | DecStep(p: Ptr)
    | IncStep(p: Ptr)
    | MarkStep(id: Id, remove: bool)

  /** Sections run in any order, by any thread, but the thread that set busy ends what it began; references are
      dropped or copied only by their holders; and new_vnode is called for new names in mounted spaces. */
  predicate Enabled(s: Table, step: Step) {
    match step
    case LoadStep(_) => true
    case ReadDoneStep(p, _, _) => p in s.vnodes && s.vnodes[p].work == Reading
    case FreedStep(p) => p in s.vnodes && s.vnodes[p].work in {Releasing, Removing}
    case NewStep(id, _) => s.free != [] ==> id.nsid in s.spaces && id !in s.index
    case RenewedStep(p, id, _) =>
      && p in s.vnodes && s.vnodes[p].work == Renewing && id.nsid in s.spaces
      && (id !in s.index || s.vnodes[p].name == Some(id))
    case DecStep(p) => p in s.vnodes && s.vnodes[p].rcnt > 0
    case IncStep(p) => p in s.vnodes && s.vnodes[p].rcnt > 0
    case MarkStep(_, _) => true
  }

  function Apply(s: Table, step: Step): Table
    requires Inv(s) && Enabled(s, step)
  {
    match step
    case LoadStep(id) => Load(s, id).0
    case ReadDoneStep(p, ok, data) => ReadDone(s, p, ok, data)
    case FreedStep(p) => Freed(s, p)
    case NewStep(id, data) => New(s, id, data).0
    case RenewedStep(p, id, data) => Renewed(s, p, id, data).0
    case DecStep(p) => Dec(s, p).0
    case IncStep(p) => Inc(s, p)
    case MarkStep(id, remove) => Mark(s, id, remove).0
  }

  lemma ApplyKeeps(s: Table, step: Step)
    requires Good(s) && Enabled(s, step)
    ensures Good(Apply(s, step))
  {
    hide Inv, Coupled, Load, ReadDone, Freed, New, Renewed, Dec, Inc, Mark;
    match step
    case LoadStep(id) => LoadKeeps(s, id);
    case ReadDoneStep(p, ok, data) => ReadDoneKeeps(s, p, ok, data);
    case FreedStep(p) => FreedKeeps(s, p);
    case NewStep(id, data) => NewKeeps(s, id, data);
    case RenewedStep(p, id, data) => RenewedKeeps(s, p, id, data);
    case DecStep(p) => DecKeeps(s, p);
    case IncStep(p) => IncKeeps(s, p);
    case MarkStep(id, remove) => MarkKeeps(s, id, remove);
  }

  /** All vnodes are free at first. */
  ghost predicate Init(s: Table) {
    && s.used == [] && s.locked == [] && s.index == map[] && s.log == []
    && (forall n :: n in s.spaces ==> s.spaces[n] == [])
    && Distinct(s.free) && (forall p :: p in s.free <==> p in s.vnodes)
    && (forall p :: p in s.vnodes ==> s.vnodes[p] == Vnode(None, false, Nothing, Free, 0, s.vnodes[p].data))
  }

  ghost predicate Run(ss: seq<Table>, steps: seq<Step>) {
    && |ss| == |steps| + 1 && Init(ss[0])
    && forall i :: 0 <= i < |steps| && Inv(ss[i]) ==> Enabled(ss[i], steps[i]) && ss[i + 1] == Apply(ss[i], steps[i])
  }

  /** Over every run the table stays in order, and each vnode's life alternates between loads and ends, the end being
      a removal just if the vnode is marked when its last reference goes. */
  lemma {:induction false} RunKeeps(ss: seq<Table>, steps: seq<Step>)
    requires Run(ss, steps)
    ensures Good(ss[|steps|])
  {
    if steps == [] {
      hide Distinct;
      assert Good(ss[0]);
    } else {
      var n := |steps| - 1;
      assert Run(ss[..n + 1], steps[..n]) by { RunPrefix(ss, steps, n); }
      RunKeeps(ss[..n + 1], steps[..n]);
      hide Inv, Coupled, Init;
      ApplyKeeps(ss[n], steps[n]);
    }
  }

  lemma RunPrefix(ss: seq<Table>, steps: seq<Step>, n: nat)
    requires Run(ss, steps) && n <= |steps|
    ensures Run(ss[..n + 1], steps[..n])
  {
    hide Inv, Init, Enabled, Apply;
  }

  /** The three lists add up to all vnodes. */
  lemma ListsAddUp(s: Table)
    requires ListsInv(s)
    ensures |s.free| + |s.used| + |s.locked| == |s.vnodes|
  {
    DistinctCount(s.free);
    DistinctCount(s.used);
    DistinctCount(s.locked);
    assert s.vnodes.Keys == Elems(s.free) + Elems(s.used) + Elems(s.locked);
    assert |s.vnodes| == |s.vnodes.Keys|;
  }
}
