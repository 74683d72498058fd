/** Reading a directory of the root file system in pieces (rootfs.c, rootfs_readdir).  The cursor is the last name read;
    since directories are sorted, a scan is not confused by what happens to the directory between calls. */
module ReadDirs {
  import opened Names
  import RootFs

  datatype Entry = Entry(name: string, vnid: int)

  /** struct dirpos. */
  datatype Cursor = Cursor(pos: nat, name: string)

  const START := Cursor(0, "")

  predicate Sorted(dir: seq<Entry>) {
    forall i, j :: 0 <= i < j < |dir| ==> Less(dir[i].name, dir[j].name)
  }

  /** A directory of the root file system as readdir walks it. */
  function Listing(nodes: RootFs.Nodes, kids: seq<RootFs.Id>): seq<Entry>
    requires forall k :: k in kids ==> k in nodes
  {
    seq(|kids|, i requires 0 <= i < |kids| => Entry(nodes[kids[i]].name, kids[i]))
  }

  /** Directories are sorted at all times, which is what readdir relies on. */
  lemma ListingSorted(nodes: RootFs.Nodes, root: RootFs.Id, depth: map<RootFs.Id, nat>, d: RootFs.Id)
    requires RootFs.Tree(nodes, root, depth) && d in nodes
    ensures RootFs.KidsIn(nodes, d) && Sorted(Listing(nodes, nodes[d].kids))
    ensures forall i, j :: 0 <= i < j < |nodes[d].kids| ==> Before(nodes[nodes[d].kids[i]].name, nodes[nodes[d].kids[j]].name)
  {
    assert RootFs.NodeOk(nodes, root, depth, d);
    forall i, j | 0 <= i < j < |nodes[d].kids| ensures Before(nodes[nodes[d].kids[i]].name, nodes[nodes[d].kids[j]].name) {
      LessIsBefore(nodes[nodes[d].kids[i]].name, nodes[nodes[d].kids[j]].name);
    }
  }

  /** The entries whose names come after name. */
  function After(dir: seq<Entry>, name: string): (r: seq<Entry>)
    ensures |r| <= |dir|
  {
    if dir == [] then [] else if Compare(name, dir[0].name) >= 0 then After(dir[1..], name) else dir
  }

  /** What there is still to report: '.', '..', and the entries past the cursor. */
  function Pending(c: Cursor, self: int, parent: int, dir: seq<Entry>): seq<Entry> {
    if c.pos == 0 then [Entry(".", self), Entry("..", parent)] + dir
    else if c.pos == 1 then [Entry("..", parent)] + dir
    else if c.pos == 2 then dir
    else After(dir, c.name)
  }

  /** The cursor after n more entries. */
  function Moved(c: Cursor, pending: seq<Entry>, n: nat): Cursor
    requires n <= |pending|
  {
    Cursor(c.pos + n, if c.pos + n > 2 && n > 0 then pending[n - 1].name else c.name)
  }

  /** The room one entry takes, padded to eight bytes; base is the size of struct my_dirent. */
  function Padded(e: Entry, base: nat): nat {
    (base + |e.name| + 7) / 8 * 8
  }

  function RoomFor(entries: seq<Entry>, base: nat): nat {
    if entries == [] then 0 else RoomFor(entries[..|entries| - 1], base) + Padded(entries[|entries| - 1], base)
  }

  /** Each record takes the room of its parts, rounded up to eight bytes, and the records lie one behind the other. */
  lemma RoomIs(entries: seq<Entry>, e: Entry, base: nat)
    ensures Padded(e, base) % 8 == 0 && base + |e.name| <= Padded(e, base) < base + |e.name| + 8
    ensures RoomFor([], base) == 0 && RoomFor(entries + [e], base) == RoomFor(entries, base) + Padded(e, base)
  {
    MoreRoom(entries, e, base);
  }

  /** The loop: as many of the pending entries, in order, as are asked for and fit. */
  method ReadDir(c: Cursor, self: int, parent: int, dir: seq<Entry>, num: nat, base: nat, bufsize: nat)
    returns (c': Cursor, batch: seq<Entry>)
    ensures var pending := Pending(c, self, parent, dir);
      && |batch| <= |pending| && |batch| <= num && batch == pending[..|batch|]
      && (|batch| < |pending| && |batch| < num ==> RoomFor(batch, base) + base + |pending[|batch|].name| > bufsize)
      && c' == Moved(c, pending, |batch|)
  {
    hide After, RoomFor, Padded, Pending;
    var vn := 0;
    if c.pos > 2 {
      vn := Resume(c, dir);
    }
    ghost var pending := Pending(c, self, parent, dir);
    PendingIs(c, self, parent, dir, vn);
    var last;
    batch, last := Collect(c, self, parent, dir, vn, num, base, bufsize, pending);
    c' := Cursor(c.pos + |batch|, if c.pos + |batch| > 2 && batch != [] then last else c.name);
  }

  /** The loop of ReadDir. */
  method Collect(c: Cursor, self: int, parent: int, dir: seq<Entry>, vn0: nat, num: nat, base: nat, bufsize: nat,
                 ghost pending: seq<Entry>) returns (batch: seq<Entry>, last: string)
    requires PendingFrom(c, self, parent, dir, vn0, pending)
    ensures |batch| <= |pending| && |batch| <= num && batch == pending[..|batch|]
    ensures |batch| < |pending| && |batch| < num ==> RoomFor(batch, base) + base + |pending[|batch|].name| > bufsize
    ensures batch != [] ==> last == batch[|batch| - 1].name
  {
    hide RoomFor, Padded;
    var pos, used, vn := c.pos, 0, vn0;
    batch, last := [], "";
    NoRoom(base);
    while |batch| < num && (pos < 2 || vn < |dir|)
      invariant pos == c.pos + |batch| && |batch| <= |pending| && |batch| <= num
      invariant vn == (if pos < 2 then vn0 else vn0 + |batch| - (if c.pos < 2 then 2 - c.pos else 0)) <= |dir|
      invariant batch == pending[..|batch|] && used == RoomFor(batch, base)
      invariant batch != [] ==> last == batch[|batch| - 1].name
      decreases num - |batch|
    {
      var e := if pos == 0 then Entry(".", self) else if pos == 1 then Entry("..", parent) else dir[vn];
      assert e == pending[|batch|];
      assert pending[..|batch| + 1] == pending[..|batch|] + [e];
      if used + base + |e.name| > bufsize {
        break;
      }
      if pos >= 2 {
        vn := vn + 1;
      }
      last := e.name;
      MoreRoom(batch, e, base);
      used := used + Padded(e, base);
      batch := batch + [e];
      pos := pos + 1;
    }
  }

  /** Past the names up to the cursor's. */
  method Resume(c: Cursor, dir: seq<Entry>) returns (vn: nat)
    ensures vn <= |dir| && After(dir, c.name) == dir[vn..]
  {
    vn := 0;
    while vn < |dir| && Compare(c.name, dir[vn].name) >= 0
      invariant vn <= |dir| && After(dir, c.name) == After(dir[vn..], c.name)
    {
      assert dir[vn..][1..] == dir[vn + 1..];
      vn := vn + 1;
    }
  }

  /** What is pending: the dots not reported yet, and then the directory from vn on. */
  ghost predicate PendingFrom(c: Cursor, self: int, parent: int, dir: seq<Entry>, vn: nat, pending: seq<Entry>) {
    var dots := if c.pos < 2 then 2 - c.pos else 0;
    && vn <= |dir| && |pending| == dots + |dir| - vn
    && (forall i :: dots <= i < |pending| ==> pending[i] == dir[vn + i - dots])
    && (c.pos == 0 ==> pending[0] == Entry(".", self))
    && (c.pos < 2 ==> pending[1 - c.pos] == Entry("..", parent))
  }

  lemma PendingIs(c: Cursor, self: int, parent: int, dir: seq<Entry>, vn: nat)
    requires vn <= |dir| && (if c.pos > 2 then After(dir, c.name) == dir[vn..] else vn == 0)
    ensures PendingFrom(c, self, parent, dir, vn, Pending(c, self, parent, dir))
  {
    if c.pos == 0 {
      assert Pending(c, self, parent, dir) == [Entry(".", self), Entry("..", parent)] + dir;
    } else if c.pos == 1 {
      assert Pending(c, self, parent, dir) == [Entry("..", parent)] + dir;
    } else {
      assert Pending(c, self, parent, dir) == dir[vn..];
    }
    hide Pending, After;
  }

  lemma NoRoom(base: nat)
    ensures RoomFor([], base) == 0
  {
  }

  lemma MoreRoom(entries: seq<Entry>, e: Entry, base: nat)
    ensures RoomFor(entries + [e], base) == RoomFor(entries, base) + Padded(e, base)
  {
    assert (entries + [e])[..|entries|] == entries;
  }

  // ---- a whole scan

  /** The directory as it is at each call, with its own number and its parent's. */
  datatype Snapshot = Snapshot(self: int, parent: int, dir: seq<Entry>)

  /** Call after call, each from where the last one stopped, with the directory changing as it likes in between. */
  ghost predicate Scan(snaps: seq<Snapshot>, cursors: seq<Cursor>, batches: seq<seq<Entry>>) {
    && |cursors| == |snaps| + 1 && |batches| == |snaps| && cursors[0] == START
    && (forall i :: 0 <= i < |snaps| ==> Sorted(snaps[i].dir))
    && (forall i :: 0 <= i < |snaps| ==> Call(snaps[i], cursors[i], cursors[i + 1], batches[i]))
  }

  /** What ReadDir guarantees of one call. */
  ghost predicate Call(s: Snapshot, c: Cursor, c': Cursor, batch: seq<Entry>) {
    var pending := Pending(c, s.self, s.parent, s.dir);
    |batch| <= |pending| && batch == pending[..|batch|] && c' == Moved(c, pending, |batch|)
  }

  /** The entries of a batch without '.' and '..'. */
  function Real(c: Cursor, batch: seq<Entry>): seq<Entry> {
    var dots := if c.pos < 2 then 2 - c.pos else 0;
    if |batch| <= dots then [] else batch[dots..]
  }

  /** All that the first k calls reported, without '.' and '..'. */
  function Reported(cursors: seq<Cursor>, batches: seq<seq<Entry>>, k: nat): seq<Entry>
    requires k <= |batches| && k <= |cursors|
  {
    if k == 0 then [] else Reported(cursors, batches, k - 1) + Real(cursors[k - 1], batches[k - 1])
  }

  /** The entries the cursor has not passed. */
  function Ahead(c: Cursor, dir: seq<Entry>): seq<Entry> {
    if c.pos <= 2 then dir else After(dir, c.name)
  }

  lemma {:induction false} AfterIs(dir: seq<Entry>, name: string)
    requires Sorted(dir)
    ensures Sorted(After(dir, name))
    ensures forall e :: e in After(dir, name) <==> e in dir && Less(name, e.name)
  {
    if dir != [] {
      Total(name, dir[0].name);
      AfterIs(dir[1..], name);
      forall i | 0 < i < |dir| ensures Less(name, dir[0].name) ==> Less(name, dir[i].name) {
        if Less(name, dir[0].name) { LessTrans(name, dir[0].name, dir[i].name); }
      }
      assert forall e :: e in dir <==> e == dir[0] || e in dir[1..];
    }
  }

  /** What a call has still to report of a sorted directory: '.' and '..' unless reported, and the entries whose names
      come behind the cursor's, in order. */
  lemma PendingAre(c: Cursor, self: int, parent: int, dir: seq<Entry>)
    requires Sorted(dir)
    ensures c.pos == 0 ==> Pending(c, self, parent, dir) == [Entry(".", self), Entry("..", parent)] + dir
    ensures c.pos == 1 ==> Pending(c, self, parent, dir) == [Entry("..", parent)] + dir
    ensures c.pos == 2 ==> Pending(c, self, parent, dir) == dir
    ensures c.pos > 2 ==> exists i :: 0 <= i <= |dir| && Pending(c, self, parent, dir) == dir[i..]
                                      && forall j :: 0 <= j < |dir| ==> (i <= j <==> Before(c.name, dir[j].name))
  {
    if c.pos > 2 {
      var i := AfterFrom(dir, c.name);
      assert Pending(c, self, parent, dir) == dir[i..];
      forall j | 0 <= j < |dir| ensures i <= j <==> Before(c.name, dir[j].name) {
        LessIsBefore(c.name, dir[j].name);
      }
    }
  }

  lemma {:induction false} AfterFrom(dir: seq<Entry>, name: string) returns (i: nat)
    requires Sorted(dir)
    ensures i <= |dir| && After(dir, name) == dir[i..]
    ensures forall j :: 0 <= j < |dir| ==> (i <= j <==> Less(name, dir[j].name))
  {
    if dir == [] || Compare(name, dir[0].name) < 0 {
      i := 0;
      forall j | 0 < j < |dir| ensures Less(name, dir[j].name) {
        LessTrans(name, dir[0].name, dir[j].name);
      }
    } else {
      i := AfterFrom(dir[1..], name);
      assert dir[1..][i..] == dir[i + 1..];
      forall j | 0 < j < |dir| ensures i + 1 <= j <==> Less(name, dir[j].name) {
        assert dir[j] == dir[1..][j - 1];
      }
      i := i + 1;
    }
  }

  lemma AheadIs(c: Cursor, dir: seq<Entry>)
    requires Sorted(dir)
    ensures Sorted(Ahead(c, dir))
    ensures forall e :: e in Ahead(c, dir) <==> e in dir && (c.pos <= 2 || Less(c.name, e.name))
  {
    AfterIs(dir, c.name);
  }

  /** A call reports the first of what is ahead, and moves the cursor to the last of that. */
  lemma CallReports(s: Snapshot, c: Cursor, c': Cursor, batch: seq<Entry>) returns (m: nat)
    requires Call(s, c, c', batch)
    ensures m <= |Ahead(c, s.dir)| && Real(c, batch) == Ahead(c, s.dir)[..m]
    ensures m > 0 ==> c'.pos > 2 && c'.name == Ahead(c, s.dir)[m - 1].name
    ensures m == 0 ==> (c'.pos > 2 <==> c.pos > 2) && (c.pos > 2 ==> c'.name == c.name)
    ensures |batch| == |Pending(c, s.self, s.parent, s.dir)| ==> m == |Ahead(c, s.dir)|
  {
    var pending, ahead := Pending(c, s.self, s.parent, s.dir), Ahead(c, s.dir);
    var dots := if c.pos < 2 then 2 - c.pos else 0;
    assert |pending| == dots + |ahead| && pending[dots..] == ahead;
    m := if |batch| <= dots then 0 else |batch| - dots;
    if m > 0 {
      assert batch[dots..] == pending[dots..][..m];
      assert pending[|batch| - 1] == pending[dots..][m - 1];
    }
  }

  /** What holds after each call: what was reported is sorted, the cursor is at its end, and nothing that stayed and
      that the cursor has passed was missed. */
  ghost predicate Good(snaps: seq<Snapshot>, c: Cursor, r: seq<Entry>, k: nat)
    requires k <= |snaps|
  {
    && Sorted(r) && (c.pos > 2 <==> r != []) && (r != [] ==> c.name == r[|r| - 1].name)
    && (forall e :: Stays(snaps, e, k) && c.pos > 2 && !Less(c.name, e.name) ==> e in r)
    && (forall e :: e in r ==> exists i :: 0 <= i < k && e in snaps[i].dir)
  }

  /** Is e in the directory at each of the first k calls? */
  ghost predicate Stays(snaps: seq<Snapshot>, e: Entry, k: nat)
    requires k <= |snaps|
  {
    forall i :: 0 <= i < k ==> e in snaps[i].dir
  }

  lemma StepGood(snaps: seq<Snapshot>, c: Cursor, c': Cursor, batch: seq<Entry>, r: seq<Entry>, k: nat)
    requires k < |snaps| && Sorted(snaps[k].dir) && Good(snaps, c, r, k) && Call(snaps[k], c, c', batch)
    ensures Good(snaps, c', r + Real(c, batch), k + 1)
    ensures |batch| == |Pending(c, snaps[k].self, snaps[k].parent, snaps[k].dir)| ==>
      forall e :: Stays(snaps, e, k + 1) ==> e in r + Real(c, batch)
  {
    hide Sorted, Call, Pending, After;
    var dir := snaps[k].dir;
    var ahead := Ahead(c, dir);
    var m := CallReports(snaps[k], c, c', batch);
    AheadIs(c, dir);
    JoinSorted(r, ahead, c, m);
    forall e | Stays(snaps, e, k + 1)
      ensures c'.pos > 2 && !Less(c'.name, e.name) ==> e in r + ahead[..m]
      ensures m == |ahead| ==> e in r + ahead[..m]
    {
      StaysStep(snaps, c, c', r, k, e, ahead, m);
    }
    forall e | e in r + ahead[..m] ensures exists i :: 0 <= i < k + 1 && e in snaps[i].dir {
      if e in r {
        var i :| 0 <= i < k && e in snaps[i].dir;
      } else {
        assert e in ahead && e in snaps[k].dir;
      }
    }
  }

  lemma JoinSorted(r: seq<Entry>, ahead: seq<Entry>, c: Cursor, m: nat)
    requires Sorted(r) && Sorted(ahead) && m <= |ahead| && (r != [] ==> c.name == r[|r| - 1].name)
    requires r != [] ==> forall e :: e in ahead ==> Less(c.name, e.name)
    ensures Sorted(r + ahead[..m])
  {
    var l := r + ahead[..m];
    forall i, j | 0 <= i < j < |l| ensures Less(l[i].name, l[j].name) {
      if i < |r| <= j {
        assert ahead[j - |r|] in ahead;
        if i < |r| - 1 { LessTrans(l[i].name, c.name, l[j].name); }
      }
    }
  }

  lemma StaysStep(snaps: seq<Snapshot>, c: Cursor, c': Cursor, r: seq<Entry>, k: nat, e: Entry, ahead: seq<Entry>, m: nat)
    requires k < |snaps| && Good(snaps, c, r, k) && Stays(snaps, e, k + 1) && Sorted(ahead) && m <= |ahead|
    requires forall x :: x in ahead <==> x in snaps[k].dir && (c.pos <= 2 || Less(c.name, x.name))
    requires m > 0 ==> c'.pos > 2 && c'.name == ahead[m - 1].name
    requires m == 0 ==> (c'.pos > 2 <==> c.pos > 2) && (c.pos > 2 ==> c'.name == c.name)
    ensures c'.pos > 2 && !Less(c'.name, e.name) ==> e in r + ahead[..m]
    ensures m == |ahead| ==> e in r + ahead[..m]
  {
    assert e in snaps[k].dir && Stays(snaps, e, k);
    if e in ahead {
      var i :| 0 <= i < |ahead| && ahead[i] == e;
      if m <= i && m > 0 { assert Less(ahead[m - 1].name, ahead[i].name); }
      assert i < m ==> ahead[..m][i] == e;
    }
  }

  lemma StartGood(snaps: seq<Snapshot>)
    ensures Good(snaps, START, [], 0)
  {
    hide Less;
  }

  lemma {:induction false} ScanGood(snaps: seq<Snapshot>, cursors: seq<Cursor>, batches: seq<seq<Entry>>, k: nat)
    requires Scan(snaps, cursors, batches) && k <= |snaps|
    ensures Good(snaps, cursors[k], Reported(cursors, batches, k), k)
  {
    hide Good, Sorted, Call, Real;
    if k == 0 {
      StartGood(snaps);
    } else {
      ScanGood(snaps, cursors, batches, k - 1);
      StepGood(snaps, cursors[k - 1], cursors[k], batches[k - 1], Reported(cursors, batches, k - 1), k - 1);
    }
  }

  ghost predicate NoRepeats(r: seq<Entry>) {
    forall i, j :: 0 <= i < j < |r| ==> r[i].name != r[j].name
  }

  /** However the directory changes during a scan, no name is reported twice, and nothing that was never there. */
  lemma ScanNoneTwice(snaps: seq<Snapshot>, cursors: seq<Cursor>, batches: seq<seq<Entry>>)
    requires Scan(snaps, cursors, batches)
    ensures var r := Reported(cursors, batches, |snaps|);
      && NoRepeats(r)
      && (forall e :: e in r ==> exists i :: 0 <= i < |snaps| && e in snaps[i].dir)
  {
    ScanGood(snaps, cursors, batches, |snaps|);
    var r := Reported(cursors, batches, |snaps|);
    forall i, j | 0 <= i < j < |r| ensures r[i].name != r[j].name {
      Total(r[i].name, r[j].name);
    }
  }

  /** And once a call has reported all that was pending, every entry that was there all the time was reported, just
      once. */
  lemma ScanAllOnce(snaps: seq<Snapshot>, cursors: seq<Cursor>, batches: seq<seq<Entry>>, e: Entry)
    requires Scan(snaps, cursors, batches) && snaps != [] && Stays(snaps, e, |snaps|)
    requires var last := |snaps| - 1;
      |batches[last]| == |Pending(cursors[last], snaps[last].self, snaps[last].parent, snaps[last].dir)|
    ensures var r := Reported(cursors, batches, |snaps|);
      exists i :: 0 <= i < |r| && r[i] == e && forall j :: 0 <= j < |r| && r[j].name == e.name ==> j == i
  {
    var last := |snaps| - 1;
    hide Good, Sorted, Pending, NoRepeats, Real;
    ScanGood(snaps, cursors, batches, last);
    StepGood(snaps, cursors[last], cursors[last + 1], batches[last], Reported(cursors, batches, last), last);
    ScanNoneTwice(snaps, cursors, batches);
    OnceIn(Reported(cursors, batches, |snaps|), e);
  }

  lemma OnceIn(r: seq<Entry>, e: Entry)
    requires e in r && NoRepeats(r)
    ensures exists i :: 0 <= i < |r| && r[i] == e && forall j :: 0 <= j < |r| && r[j].name == e.name ==> j == i
  {
    var i :| 0 <= i < |r| && r[i] == e;
    assert forall j :: 0 <= j < |r| && r[j].name == e.name ==> j == i;
  }
}
